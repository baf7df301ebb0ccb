/** Deletes against renames: the delete workers of delete_queue.go and the renames of bucket_access_writes.go,
    interleaved at their lock operations. */
module DeleteProtocol {
  import opened VirtualPaths
  import opened DeleteQueue
  import opened Wrappers

  datatype Rename = Rename(src: Path, dst: Path, isDir: bool)

  /** What renamePath requires of its paths, and that they do not overlap. */
  predicate Proper(r: Rename) {
    r.src != [] && r.dst != [] && Apart(r.src, r.dst, r.isDir)
  }

  /** Who holds mutationMu. A rename holds it over the provider move and the rebase that follows. */
  datatype Holder = Free | Deleting(id: nat) | Moving(rename: Rename) | HasMoved(rename: Rename)

  /** How many moves and how many rebases had been made at some moment. */
  datatype Time = Time(moves: nat, rebases: nat)

  /** What is deleted: a file or a whole directory, and with or without its versions. */
  datatype Kind = Kind(isDir: bool, hard: bool)

  /** A provider delete: its target, when it started, and what it deletes. */
  datatype Call = Call(target: Path, at: Time, kind: Kind)

  datatype World = World(
    queue: Queue,
    next: nat,
    renaming: Option<Rename>,   // the rename holding writebackMu
    holder: Holder,
    moves: seq<Rename>,         // every successful provider move, in order
    rebases: seq<Rename>,       // every rebase of the queue, in order
    origin: map<nat, Path>,     // the path each delete was enqueued for
    born: map<nat, Time>,       // when that was
    asked: map<nat, Kind>,      // and what was asked for
    calls: map<nat, Call>)

  const INIT := World(EMPTY, 0, None, Free, [], [], map[], map[], map[], map[])

  datatype Action =
    | DeletePath(path: Path, isDir: bool, hard: bool)
    | ClaimEntry(id: nat)
    | StartCall(id: nat)
    | EndCall
    | FinishEntry(id: nat)
    | BeginRename(rename: Rename)
    | AbortRename                     // a barrier or drain times out
    | LockMutation
    | MoveFails
    | MoveSucceeds
    | MoveUnreported                  // the move takes effect and still returns an error, or the probes after it do
    | RebaseDeletes
    | ReplayRebase(rename: Rename)    // a rebase without a move: a retry that finds the move already done

  predicate Pending(q: Queue, id: nat) {
    id in q.tasks && (Claimable(q, id) || (id in q.running && !q.tasks[id].started))
  }

  predicate Enabled(w: World, a: Action) {
    match a
    case DeletePath(_, _, _) => w.renaming.None?
    case ClaimEntry(_) => true
    case StartCall(id) => id in w.queue.running && id in w.queue.tasks && !w.queue.tasks[id].started && w.holder.Free?
    case EndCall => w.holder.Deleting?
    case FinishEntry(id) => id in w.calls && w.holder != Deleting(id)
    case BeginRename(r) => w.renaming.None? && Proper(r)
    case AbortRename => w.renaming.Some? && !w.holder.Moving? && !w.holder.HasMoved?
    case LockMutation => w.renaming.Some? && w.holder.Free?
    case MoveFails => w.holder.Moving?
    case MoveSucceeds => w.holder.Moving?
    case MoveUnreported => w.holder.Moving?
    case RebaseDeletes => w.holder.HasMoved?
    case ReplayRebase(r) => w.renaming.None? && w.holder.Free? && Proper(r)
  }

  function RebasedBy(q: Queue, r: Rename): Queue {
    Rebased(q, r.src, r.dst, r.isDir)
  }

  function Now(w: World): Time {
    Time(|w.moves|, |w.rebases|)
  }

  predicate Until(t: Time, end: Time) {
    t.moves <= end.moves && t.rebases <= end.rebases
  }

  ghost predicate Shape(w: World) {
    && WellFormed(w.queue)
    && (forall id :: id in w.queue.tasks ==> id < w.next)
    && w.origin.Keys == w.queue.tasks.Keys == w.born.Keys == w.asked.Keys
    && (forall id :: id in w.calls <==> id in w.queue.tasks && w.queue.tasks[id].started)
    && (w.renaming.Some? ==> Proper(w.renaming.value))
    && (w.holder.Moving? || w.holder.HasMoved? ==> w.renaming == Some(w.holder.rename))
    && (w.holder.HasMoved? ==> |w.moves| > 0 && w.moves[|w.moves| - 1] == w.holder.rename)
  }

  lemma EnqueuedTasks(q: Queue, next: nat, p: Path, isDir: bool, hard: bool)
    requires WellFormed(q) && next !in q.tasks && Accepts(q, p, isDir)
    ensures WellFormed(Enqueued(q, next, p, isDir, hard))
    ensures Enqueued(q, next, p, isDir, hard).tasks == q.tasks[next := Task(p, isDir, hard, false)]
  {
    EnqueuedWellFormed(q, next, p, isDir, hard);
  }

  ghost function Admit(w: World, p: Path, isDir: bool, hard: bool): (w': World)
    requires Shape(w)
    ensures Shape(w')
    ensures w' == w.(queue := w'.queue, next := w'.next, origin := w'.origin, born := w'.born, asked := w'.asked)
  {
    hide Enqueued, Accepts, WellFormed;
    if Accepts(w.queue, p, isDir) then
      EnqueuedTasks(w.queue, w.next, p, isDir, hard);
      w.(queue := Enqueued(w.queue, w.next, p, isDir, hard), next := w.next + 1,
         origin := w.origin[w.next := p], born := w.born[w.next := Now(w)],
         asked := w.asked[w.next := Kind(isDir, hard)])
    else w
  }

  ghost function Start(w: World, id: nat): (w': World)
    requires Shape(w) && Enabled(w, StartCall(id))
    ensures Shape(w')
  {
    var t := w.queue.tasks[id];
    w.(queue := Started(w.queue, id), holder := Deleting(id),
       calls := w.calls[id := Call(t.path, Now(w), Kind(t.isDir, t.hard))])
  }

  ghost function WithRebase(w: World, r: Rename): (w': World)
    requires Shape(w) && Proper(r)
    ensures Shape(w')
  {
    RebasedShape(w.queue, r);
    w.(queue := RebasedBy(w.queue, r), rebases := w.rebases + [r])
  }

  /** One step of any thread; a step that is not enabled changes nothing. */
  ghost function Step(w: World, a: Action): (w': World)
    requires Shape(w)
    ensures Shape(w')
  {
    if !Enabled(w, a) then w
    else match a
      case DeletePath(p, isDir, hard) => Admit(w, p, isDir, hard)
      case ClaimEntry(id) => w.(queue := Claimed(w.queue, id))
      case StartCall(id) => Start(w, id)
      case EndCall => w.(holder := Free)
      case FinishEntry(id) => w.(queue := Finished(w.queue, id))
      case BeginRename(r) => w.(renaming := Some(r))
      case AbortRename => w.(renaming := None)
      case LockMutation => w.(holder := Moving(w.renaming.value))
      case MoveFails => w.(holder := Free, renaming := None)
      case MoveSucceeds => w.(holder := HasMoved(w.holder.rename), moves := w.moves + [w.holder.rename])
      case MoveUnreported => w.(moves := w.moves + [w.holder.rename], holder := Free, renaming := None)
      case RebaseDeletes => WithRebase(w, w.holder.rename).(holder := Free, renaming := None)
      case ReplayRebase(r) => WithRebase(w, r)
  }

  lemma RebasedShape(q: Queue, r: Rename)
    requires WellFormed(q) && Proper(r)
    ensures var q' := RebasedBy(q, r);
            WellFormed(q') && q'.tasks.Keys == q.tasks.Keys
            && forall id :: id in q.tasks ==> q'.tasks[id].started == q.tasks[id].started
  {
    RebasedWellFormed(q, r.src, r.dst, r.isDir);
  }

  /** A path rewritten by renames, in order. */
  function Rewrite(p: Path, rs: seq<Rename>): Path {
    if rs == [] then p
    else
      var r := rs[|rs| - 1];
      Renamed(Rewrite(p, rs[..|rs| - 1]), r.src, r.dst, r.isDir)
  }

  // ---------------------------------------------------------------- what every run keeps

  /** The path that the rebases have given to a delete which was enqueued for `origin`. */
  predicate Tracks(path: Path, origin: Path, from: nat, until: nat, rebases: seq<Rename>) {
    from <= until <= |rebases| && path == Rewrite(origin, rebases[from..until])
  }

  /** Every pending delete has its original path as the rebases since then have rewritten it. */
  ghost predicate PendingTracked(q: Queue, origin: map<nat, Path>, born: map<nat, Time>, rebases: seq<Rename>) {
    forall id :: id in q.tasks && Pending(q, id) ==>
      id in origin && id in born && Tracks(q.tasks[id].path, origin[id], born[id].rebases, |rebases|, rebases)
  }

  /** Every provider delete took the path that the rebases until its start had made, and its entry was never rewritten
      afterwards. */
  ghost predicate CallsTracked(q: Queue, origin: map<nat, Path>, born: map<nat, Time>, calls: map<nat, Call>,
                               rebases: seq<Rename>)
  {
    forall id :: id in calls ==>
      && id in q.tasks && q.tasks[id].started && q.tasks[id].path == calls[id].target && id in origin && id in born
      && Tracks(calls[id].target, origin[id], born[id].rebases, calls[id].at.rebases, rebases)
  }

  /** The moves that the queue is to know of: a reported one counts once its rebase is done. */
  function Settled(w: World): (s: seq<Rename>) {
    if w.holder.HasMoved? && w.moves != [] then w.moves[..|w.moves| - 1] else w.moves
  }

  ghost predicate Timed(w: World) {
    && (forall id :: id in w.born ==> Until(w.born[id], Now(w)) && w.born[id].moves <= |Settled(w)|)
    && (forall id :: id in w.calls ==> id in w.born && Until(w.born[id], w.calls[id].at) && Until(w.calls[id].at, Now(w)))
  }

  ghost predicate Tracked(q: Queue, origin: map<nat, Path>, born: map<nat, Time>, calls: map<nat, Call>,
                          rebases: seq<Rename>)
  {
    PendingTracked(q, origin, born, rebases) && CallsTracked(q, origin, born, calls, rebases)
  }

  ghost predicate Inv(w: World) {
    Shape(w) && Timed(w) && Tracked(w.queue, w.origin, w.born, w.calls, w.rebases)
  }

  /** A queue step that adds no pending delete and rewrites none. */
  ghost predicate Shrinks(q: Queue, q': Queue) {
    q'.tasks.Keys == q.tasks.Keys &&
    forall id :: id in q.tasks ==>
      && q'.tasks[id].path == q.tasks[id].path
      && (q.tasks[id].started ==> q'.tasks[id].started)
      && (Pending(q', id) ==> Pending(q, id))
  }

  lemma ShrinkKeeps(q: Queue, q': Queue, origin: map<nat, Path>, born: map<nat, Time>, calls: map<nat, Call>,
                    rebases: seq<Rename>)
    requires Shrinks(q, q') && Tracked(q, origin, born, calls, rebases)
    ensures Tracked(q', origin, born, calls, rebases)
  {
    hide Tracks;
  }

  /** A queue step that adds one pending delete and may cancel others. */
  ghost predicate Adds(q: Queue, q': Queue, next: nat, p: Path) {
    && q'.tasks.Keys == q.tasks.Keys + {next} && q'.tasks[next].path == p && !q'.tasks[next].started
    && forall id :: id in q.tasks && id != next ==> q'.tasks[id] == q.tasks[id] && (Pending(q', id) ==> Pending(q, id))
  }

  lemma EnqueuedAdds(q: Queue, next: nat, p: Path, isDir: bool, hard: bool)
    requires WellFormed(q) && next !in q.tasks && Accepts(q, p, isDir)
    ensures Adds(q, Enqueued(q, next, p, isDir, hard), next, p)
  {
  }

  lemma AddKeeps(q: Queue, q': Queue, next: nat, p: Path, origin: map<nat, Path>, born: map<nat, Time>, now: Time,
                 calls: map<nat, Call>, rebases: seq<Rename>)
    requires Adds(q, q', next, p) && next !in q.tasks && now.rebases == |rebases|
    requires Tracked(q, origin, born, calls, rebases)
    ensures Tracked(q', origin[next := p], born[next := now], calls, rebases)
  {
    assert Tracks(p, p, |rebases|, |rebases|, rebases);
    hide Tracks;
  }

  lemma RewriteSnoc(p: Path, rs: seq<Rename>, r: Rename)
    ensures Rewrite(p, rs + [r]) == Renamed(Rewrite(p, rs), r.src, r.dst, r.isDir)
  {
    assert (rs + [r])[..|rs|] == rs;
  }

  /** A rebase renames the path of every pending delete it keeps, revives none, and leaves all others alone. */
  lemma RebasedPending(q: Queue, r: Rename, id: nat)
    requires WellFormed(q) && Proper(r) && id in q.tasks
    ensures var q' := RebasedBy(q, r);
            && (Pending(q', id) ==>
                  Pending(q, id) && q'.tasks[id].path == Renamed(q.tasks[id].path, r.src, r.dst, r.isDir))
            && (q.tasks[id].started ==> q'.tasks[id] == q.tasks[id])
  {
    var q' := RebasedBy(q, r);
    var keys := q.entries.Keys;
    var carried, dropped := Carried(keys, keys, r.src, r.dst, r.isDir), Dropped(keys, keys, r.src, r.dst, r.isDir);
    if Claimable(q', id) {
      var p := q'.tasks[id].path;
      RekeyAt(q.entries, carried, dropped, r.src, r.dst, r.isDir, p);
      if Matches(p, r.dst, r.isDir) && Rebase(p, r.dst, r.src) in carried {
        RebaseBack(p, r.dst, r.src, r.isDir);
      }
    }
  }

  /** And one that is over, cancelled or running with its call made, is not touched. */
  lemma RebasedDead(q: Queue, r: Rename, id: nat)
    requires WellFormed(q) && Proper(r) && id in q.tasks && !Pending(q, id)
    ensures id in RebasedBy(q, r).tasks && RebasedBy(q, r).tasks[id] == q.tasks[id]
  {
  }

  /** The same, said of the whole queue with the rebased queue as a value of its own. */
  ghost predicate RenamesPending(q: Queue, q': Queue, r: Rename) {
    q'.tasks.Keys == q.tasks.Keys &&
    forall id :: id in q.tasks ==>
      && (Pending(q', id) ==>
            Pending(q, id) && q'.tasks[id].path == Renamed(q.tasks[id].path, r.src, r.dst, r.isDir))
      && (q.tasks[id].started ==> q'.tasks[id] == q.tasks[id])
  }

  lemma RebasedRenames(q: Queue, r: Rename)
    requires WellFormed(q) && Proper(r)
    ensures RenamesPending(q, RebasedBy(q, r), r)
  {
    forall id | id in q.tasks
      ensures var q' := RebasedBy(q, r);
              && (Pending(q', id) ==>
                    Pending(q, id) && q'.tasks[id].path == Renamed(q.tasks[id].path, r.src, r.dst, r.isDir))
              && (q.tasks[id].started ==> q'.tasks[id] == q.tasks[id])
    {
      RebasedPending(q, r, id);
    }
  }

  lemma TracksLater(path: Path, origin: Path, from: nat, until: nat, rebases: seq<Rename>, r: Rename)
    requires Tracks(path, origin, from, until, rebases)
    ensures Tracks(path, origin, from, until, rebases + [r])
  {
    assert (rebases + [r])[from..until] == rebases[from..until];
  }

  lemma TracksOn(path: Path, origin: Path, from: nat, rebases: seq<Rename>, r: Rename)
    requires Tracks(path, origin, from, |rebases|, rebases)
    ensures Tracks(Renamed(path, r.src, r.dst, r.isDir), origin, from, |rebases| + 1, rebases + [r])
  {
    RewriteSnoc(origin, rebases[from..], r);
    assert (rebases + [r])[from..|rebases| + 1] == rebases[from..|rebases|] + [r];
  }

  lemma RebaseKeeps(q: Queue, q': Queue, r: Rename, origin: map<nat, Path>, born: map<nat, Time>,
                    calls: map<nat, Call>, rebases: seq<Rename>)
    requires RenamesPending(q, q', r) && Tracked(q, origin, born, calls, rebases)
    ensures Tracked(q', origin, born, calls, rebases + [r])
  {
    hide Tracks;
    forall id | id in q'.tasks && Pending(q', id)
      ensures Tracks(q'.tasks[id].path, origin[id], born[id].rebases, |rebases| + 1, rebases + [r])
    {
      TracksOn(q.tasks[id].path, origin[id], born[id].rebases, rebases, r);
    }
    forall id | id in calls
      ensures Tracks(calls[id].target, origin[id], born[id].rebases, calls[id].at.rebases, rebases + [r])
    {
      TracksLater(calls[id].target, origin[id], born[id].rebases, calls[id].at.rebases, rebases, r);
    }
  }

  lemma WithRebaseKeeps(w: World, r: Rename)
    requires Inv(w) && Proper(r)
    ensures Inv(WithRebase(w, r))
  {
    hide RebasedBy, Tracked, WellFormed;
    RebasedRenames(w.queue, r);
    RebaseKeeps(w.queue, RebasedBy(w.queue, r), r, w.origin, w.born, w.calls, w.rebases);
  }

  lemma StartedShrinks(q: Queue, id: nat)
    requires Pending(q, id)
    ensures Shrinks(q, Started(q, id)) && Started(q, id).tasks[id].started
  {
  }

  lemma StartTracks(q: Queue, id: nat, origin: map<nat, Path>, born: map<nat, Time>, calls: map<nat, Call>,
                    rebases: seq<Rename>, at: Time, kind: Kind)
    requires Pending(q, id) && Tracked(q, origin, born, calls, rebases) && at.rebases == |rebases|
    ensures Tracked(Started(q, id), origin, born, calls[id := Call(q.tasks[id].path, at, kind)], rebases)
  {
    hide Tracks;
    StartedShrinks(q, id);
    ShrinkKeeps(q, Started(q, id), origin, born, calls, rebases);
  }

  lemma StartKeeps(w: World, id: nat)
    requires Inv(w)
    ensures Inv(Step(w, StartCall(id)))
  {
    hide Tracked, WellFormed, Started;
    if Enabled(w, StartCall(id)) {
      StartTracks(w.queue, id, w.origin, w.born, w.calls, w.rebases, Now(w),
                  Kind(w.queue.tasks[id].isDir, w.queue.tasks[id].hard));
    }
  }

  lemma AdmitTimed(w: World, p: Path, isDir: bool, hard: bool)
    requires Shape(w) && Timed(w) && w.renaming.None?
    ensures Timed(Admit(w, p, isDir, hard))
  {
    hide WellFormed, Accepts, Enqueued;
  }

  lemma DeletePathKeeps(w: World, p: Path, isDir: bool, hard: bool)
    requires Inv(w) && w.renaming.None?
    ensures Inv(Admit(w, p, isDir, hard))
  {
    hide Accepts, Enqueued, Tracked, WellFormed, Timed;
    AdmitTimed(w, p, isDir, hard);
    if Accepts(w.queue, p, isDir) {
      EnqueuedAdds(w.queue, w.next, p, isDir, hard);
      AddKeeps(w.queue, Enqueued(w.queue, w.next, p, isDir, hard), w.next, p, w.origin, w.born, Now(w), w.calls,
               w.rebases);
    }
  }

  lemma ClaimKeeps(w: World, id: nat)
    requires Inv(w)
    ensures Inv(Step(w, ClaimEntry(id)))
  {
    hide Tracked, Admit, WithRebase, WellFormed;
    ShrinkKeeps(w.queue, Claimed(w.queue, id), w.origin, w.born, w.calls, w.rebases);
  }

  lemma FinishKeeps(w: World, id: nat)
    requires Inv(w)
    ensures Inv(Step(w, FinishEntry(id)))
  {
    hide Tracked, Admit, WithRebase, WellFormed;
    ShrinkKeeps(w.queue, Finished(w.queue, id), w.origin, w.born, w.calls, w.rebases);
  }

  lemma EnqueueStepKeeps(w: World, p: Path, isDir: bool, hard: bool)
    requires Inv(w)
    ensures Inv(Step(w, DeletePath(p, isDir, hard)))
  {
    hide Admit, Shape, Tracked, Timed;
    if w.renaming.None? {
      DeletePathKeeps(w, p, isDir, hard);
    }
  }

  lemma RebaseStepKeeps(w: World, a: Action)
    requires Inv(w) && (a.RebaseDeletes? || a.ReplayRebase?)
    ensures Inv(Step(w, a))
  {
    hide Tracked, RebasedBy, WellFormed;
    if Enabled(w, a) {
      WithRebaseKeeps(w, if a.RebaseDeletes? then w.holder.rename else a.rename);
    }
  }

  /** The steps that leave queue and records alone. */
  lemma LockStepKeeps(w: World, a: Action)
    requires Inv(w)
    requires !a.DeletePath? && !a.ClaimEntry? && !a.StartCall? && !a.FinishEntry? && !a.RebaseDeletes? && !a.ReplayRebase?
    ensures Inv(Step(w, a))
  {
    hide Tracked, WellFormed;
  }

  lemma StepKeeps(w: World, a: Action)
    requires Inv(w)
    ensures Inv(Step(w, a))
  {
    hide Tracked, Shape, Timed, Step;
    match a {
      case DeletePath(p, isDir, hard) => EnqueueStepKeeps(w, p, isDir, hard);
      case ClaimEntry(id) => ClaimKeeps(w, id);
      case StartCall(id) => StartKeeps(w, id);
      case FinishEntry(id) => FinishKeeps(w, id);
      case RebaseDeletes => RebaseStepKeeps(w, a);
      case ReplayRebase(_) => RebaseStepKeeps(w, a);
      case _ => LockStepKeeps(w, a);
    }
  }

  /** Any interleaving: a run is any sequence of actions of the workers, callers and renames. */
  ghost function Run(w: World, trace: seq<Action>): (w': World)
    requires Shape(w)
    ensures Shape(w')
    decreases |trace|
  {
    if trace == [] then w else Run(Step(w, trace[0]), trace[1..])
  }

  /** A queued delete never overtakes a rebase: in every interleaving, each pending delete has, and each provider
      delete took, its original path rewritten by exactly the rebases made since it was enqueued. */
  lemma {:induction false} DeletesFollowRebases(w: World, trace: seq<Action>)
    requires Inv(w)
    ensures Inv(Run(w, trace))
    decreases |trace|
  {
    if trace == [] {
    } else {
      StepKeeps(w, trace[0]);
      DeletesFollowRebases(Step(w, trace[0]), trace[1..]);
    }
  }

  // ---------------------------------------------------------------- what kind of delete it is

  predicate IsKind(q: Queue, id: nat, k: Kind) {
    id in q.tasks && q.tasks[id].isDir == k.isDir && q.tasks[id].hard == k.hard
  }

  /** Each delete, waiting or under way, is of the kind that was asked for. */
  ghost predicate KindsKept(w: World) {
    && (forall id :: id in w.queue.tasks ==> id in w.asked && IsKind(w.queue, id, w.asked[id]))
    && forall id :: id in w.calls ==> id in w.asked && w.calls[id].kind == w.asked[id]
  }

  lemma RebasedKind(q: Queue, r: Rename, id: nat)
    requires id in q.tasks
    ensures var q' := RebasedBy(q, r);
            id in q'.tasks && q'.tasks[id].isDir == q.tasks[id].isDir && q'.tasks[id].hard == q.tasks[id].hard
  {
  }

  lemma AdmitRecords(w: World, p: Path, isDir: bool, hard: bool)
    requires Shape(w)
    ensures var w' := Admit(w, p, isDir, hard);
            if !Accepts(w.queue, p, isDir) then w' == w
            else
              && w.next !in w.calls && w'.queue.tasks == w.queue.tasks[w.next := Task(p, isDir, hard, false)]
              && w'.asked == w.asked[w.next := Kind(isDir, hard)] && w'.calls == w.calls
  {
    hide WellFormed, Accepts, Enqueued;
    if Accepts(w.queue, p, isDir) {
      EnqueuedTasks(w.queue, w.next, p, isDir, hard);
    }
  }

  lemma AdmitKinds(w: World, p: Path, isDir: bool, hard: bool)
    requires Shape(w) && KindsKept(w)
    ensures KindsKept(Admit(w, p, isDir, hard))
  {
    hide Shape, Accepts, Admit;
    AdmitRecords(w, p, isDir, hard);
  }

  lemma RebaseKinds(w: World, r: Rename)
    requires Shape(w) && KindsKept(w) && Proper(r)
    ensures KindsKept(WithRebase(w, r))
  {
    hide WellFormed, RebasedBy, Proper;
    RebasedShape(w.queue, r);
    forall id | id in w.queue.tasks
      ensures IsKind(RebasedBy(w.queue, r), id, w.asked[id])
    {
      RebasedKind(w.queue, r, id);
    }
  }

  /** A step that moves no delete. */
  lemma QueueKinds(w: World, a: Action)
    requires Shape(w) && KindsKept(w) && Enabled(w, a) && (a.ClaimEntry? || a.StartCall? || a.FinishEntry?)
    ensures KindsKept(Step(w, a))
  {
    hide WellFormed;
  }

  lemma StepKinds(w: World, a: Action)
    requires Shape(w) && KindsKept(w)
    ensures KindsKept(Step(w, a))
  {
    hide WellFormed, WithRebase, Admit;
    if Enabled(w, a) {
      if a.DeletePath? {
        AdmitKinds(w, a.path, a.isDir, a.hard);
      } else if a.RebaseDeletes? || a.ReplayRebase? {
        RebaseKinds(w, if a.RebaseDeletes? then w.holder.rename else a.rename);
      } else if a.ClaimEntry? || a.StartCall? || a.FinishEntry? {
        QueueKinds(w, a);
      }
    }
  }

  /** What is taken as a record of the kind asked for never changes. */
  lemma AskedStays(w: World, a: Action, id: nat)
    requires Shape(w) && id in w.asked
    ensures id in Step(w, a).asked && Step(w, a).asked[id] == w.asked[id]
  {
    hide WellFormed, RebasedBy, Accepts, Enqueued;
  }

  /** In every interleaving a delete that has been taken keeps the kind it was asked for, through rebases, cancelled and
      upgraded neighbours: it waits as such, and its provider call is of that kind. */
  lemma {:induction false} DeletesKeepKind(w: World, p: Path, isDir: bool, hard: bool, trace: seq<Action>)
    requires Shape(w) && KindsKept(w) && Enabled(w, DeletePath(p, isDir, hard)) && Accepts(w.queue, p, isDir)
    ensures var w' := Run(Step(w, DeletePath(p, isDir, hard)), trace);
            && w.next in w'.queue.tasks
            && w'.queue.tasks[w.next].isDir == isDir && w'.queue.tasks[w.next].hard == hard
            && (w.next in w'.calls ==> w'.calls[w.next].kind == Kind(isDir, hard))
  {
    var w1 := Step(w, DeletePath(p, isDir, hard));
    StepKinds(w, DeletePath(p, isDir, hard));
    assert w.next in w1.asked && w1.asked[w.next] == Kind(isDir, hard);
    hide Step, Shape, KindsKept, Accepts;
    RunKinds(w1, trace, w.next);
    KindsOf(Run(w1, trace), w.next);
  }

  lemma KindsOf(w: World, id: nat)
    requires Shape(w) && KindsKept(w) && id in w.asked
    ensures IsKind(w.queue, id, w.asked[id]) && (id in w.calls ==> w.calls[id].kind == w.asked[id])
  {
  }

  lemma {:induction false} RunKinds(w: World, trace: seq<Action>, id: nat)
    requires Shape(w) && KindsKept(w) && id in w.asked
    ensures KindsKept(Run(w, trace)) && id in Run(w, trace).asked && Run(w, trace).asked[id] == w.asked[id]
    decreases |trace|
  {
    if trace == [] {
    } else {
      hide Step, Shape, KindsKept;
      StepKinds(w, trace[0]);
      AskedStays(w, trace[0], id);
      RunKinds(Step(w, trace[0]), trace[1..], id);
    }
  }

  // ---------------------------------------------------------------- which deletes hit their objects

  /** The place of the object that a delete was enqueued for. */
  function Place(w: World, id: nat): Path
    requires id in w.origin && id in w.born && w.born[id].moves <= |Settled(w)|
  {
    Rewrite(w.origin[id], Settled(w)[w.born[id].moves..])
  }

  /** A delete whose path is the place of its object. */
  ghost predicate Right(w: World, id: nat)
    requires Inv(w) && id in w.queue.tasks
  {
    w.queue.tasks[id].path == Place(w, id)
  }

  /** A provider delete that hit its object. */
  predicate Hit(w: World, id: nat)
    requires id in w.calls
  {
    id in w.origin && id in w.born && Exact(w.calls[id], w.origin[id], w.born[id], w.moves)
  }

  predicate Exact(call: Call, origin: Path, born: Time, moves: seq<Rename>) {
    born.moves <= call.at.moves <= |moves| && call.target == Rewrite(origin, moves[born.moves..call.at.moves])
  }

  ghost predicate AllHit(w: World) {
    forall id :: id in w.calls ==> Hit(w, id)
  }

  /** A provider delete hits its object exactly when the rebases and the moves that were made while it waited rewrite
      its path alike. */
  lemma HitIff(w: World, trace: seq<Action>, id: nat)
    requires Inv(w) && id in Run(w, trace).calls
    ensures var w' := Run(w, trace); var at := w'.calls[id].at;
            && id in w'.origin && id in w'.born && Until(w'.born[id], at) && Until(at, Now(w'))
            && (Hit(w', id) <==> Rewrite(w'.origin[id], w'.rebases[w'.born[id].rebases..at.rebases])
                                 == Rewrite(w'.origin[id], w'.moves[w'.born[id].moves..at.moves]))
  {
    DeletesFollowRebases(w, trace);
  }
  /** A delete that starts hits its object exactly when its path is right. */
  lemma StartHitsIff(w: World, id: nat)
    requires Inv(w) && Enabled(w, StartCall(id))
    ensures Hit(Step(w, StartCall(id)), id) <==> Right(w, id)
  {
    hide Rewrite;
    assert w.moves[w.born[id].moves..|w.moves|] == w.moves[w.born[id].moves..];
  }

  /** Calls made are kept, and a move made later does not change what they hit. */
  lemma StepHits(w: World, a: Action)
    requires Inv(w)
    ensures AllHit(Step(w, a)) <==> AllHit(w) && (a.StartCall? && Enabled(w, a) ==> Right(w, a.id))
  {
    hide Hit, Right, WellFormed, Tracked, Timed, Step;
    var w' := Step(w, a);
    forall id | id in w.calls
      ensures id in w'.calls && (Hit(w', id) <==> Hit(w, id))
    {
      CallStays(w, a, id);
    }
    if a.StartCall? && Enabled(w, a) {
      StartHitsIff(w, a.id);
      StartAdds(w, a.id);
    } else {
      NoneStarts(w, a);
    }
  }

  lemma StartAdds(w: World, id: nat)
    requires Shape(w) && Enabled(w, StartCall(id))
    ensures Step(w, StartCall(id)).calls.Keys == w.calls.Keys + {id}
  {
  }

  lemma NoneStarts(w: World, a: Action)
    requires Shape(w) && (a.StartCall? ==> !Enabled(w, a))
    ensures Step(w, a).calls == w.calls
  {
    hide Shape, Admit, RebasedBy;
  }

  lemma CallStays(w: World, a: Action, id: nat)
    requires Inv(w) && id in w.calls
    ensures id in Step(w, a).calls && (Hit(Step(w, a), id) <==> Hit(w, id))
  {
    hide WellFormed, RebasedBy, Rewrite, Started, Tracked, Admit;
    var w', from, to := Step(w, a), w.born[id].moves, w.calls[id].at.moves;
    if a.DeletePath? && Enabled(w, a) {
      AdmitBorn(w, a.path, a.isDir, a.hard, id);
    }
    assert w'.moves[from..to] == w.moves[from..to];
  }

  lemma AdmitBorn(w: World, p: Path, isDir: bool, hard: bool, id: nat)
    requires Shape(w) && id in w.queue.tasks
    ensures var w' := Admit(w, p, isDir, hard);
            id in w'.born && w'.born[id] == w.born[id] && id in w'.origin && w'.origin[id] == w.origin[id]
  {
    hide WellFormed, Accepts, Enqueued;
  }

  /** Every delete that starts has the right path. */
  ghost predicate StartsRight(w: World, trace: seq<Action>)
    requires Inv(w)
    decreases |trace|
  {
    trace == []
    || (StepKeeps(w, trace[0]);
        (trace[0].StartCall? && Enabled(w, trace[0]) ==> Right(w, trace[0].id)) && StartsRight(Step(w, trace[0]), trace[1..]))
  }

  /** Over a whole run. */
  lemma {:induction false} RunHitsIff(w: World, trace: seq<Action>)
    requires Inv(w)
    ensures AllHit(Run(w, trace)) <==> AllHit(w) && StartsRight(w, trace)
    decreases |trace|
  {
    if trace == [] {
    } else {
      hide AllHit, Right;
      StepKeeps(w, trace[0]);
      StepHits(w, trace[0]);
      RunHitsIff(Step(w, trace[0]), trace[1..]);
    }
  }

  // ---------------------------------------------------------------- which paths are right

  /** The rename takes what is at `p` to `q`. */
  predicate Brings(r: Rename, p: Path, q: Path) {
    Matches(p, r.src, r.isDir) && q == Rebase(p, r.src, r.dst)
  }

  function By(p: Path, r: Rename): Path {
    Renamed(p, r.src, r.dst, r.isDir)
  }

  lemma BySame(p: Path, q: Path, r: Rename)
    requires Proper(r)
    ensures By(p, r) == By(q, r) <==> p == q || Brings(r, p, q) || Brings(r, q, p)
    ensures Matches(p, r.src, r.isDir) ==> By(p, r) != p
  {
    if Matches(p, r.src, r.isDir) {
      RebaseInverse(p, r.src, r.dst, r.isDir);
    }
    if Matches(q, r.src, r.isDir) {
      RebaseInverse(q, r.src, r.dst, r.isDir);
      if Matches(p, r.src, r.isDir) && By(p, r) == By(q, r) {
        RebaseInjective(p, q, r.src, r.dst);
      }
    }
  }

  /** What a move does to the place. */
  lemma PlaceMoves(w: World, w': World, r: Rename, id: nat)
    requires Inv(w) && id in w.queue.tasks && Settled(w') == Settled(w) + [r]
    requires w'.origin == w.origin && w'.born == w.born
    ensures Place(w', id) == By(Place(w, id), r)
  {
    var from := w.born[id].moves;
    RewriteSnoc(w.origin[id], Settled(w)[from..], r);
    assert (Settled(w) + [r])[from..] == Settled(w)[from..] + [r];
  }

  /** After a move that took effect without a report, a delete has the right path exactly when it was at the place
      that the move brings its object to; one that was right stays so unless its object is moved. */
  lemma UnreportedRightIff(w: World, id: nat)
    requires Inv(w) && w.holder.Moving? && id in w.queue.tasks
    ensures var w', r := Step(w, MoveUnreported), w.holder.rename; var path, place := w.queue.tasks[id].path, Place(w, id);
            && Inv(w') && id in w'.queue.tasks
            && (Right(w', id) <==> if Matches(place, r.src, r.isDir) then Brings(r, place, path) else path == place)
            && (Right(w, id) ==> (Right(w', id) <==> !Matches(path, r.src, r.isDir)))
  {
    hide Tracked, WellFormed;
    var w', r := Step(w, MoveUnreported), w.holder.rename;
    StepKeeps(w, MoveUnreported);
    PlaceMoves(w, w', r, id);
    BySame(Place(w, id), Place(w, id), r);
  }

  /** After a reported move and its rebase, a pending delete has the right path exactly when it had, or when the rename
      brings one of its path and its object to the other. */
  lemma RebaseRightIff(w: World, id: nat)
    requires Inv(w) && w.holder.HasMoved? && id in w.queue.tasks && Pending(Step(w, RebaseDeletes).queue, id)
    ensures var w', r := Step(w, RebaseDeletes), w.holder.rename; var path, place := w.queue.tasks[id].path, Place(w, id);
            Inv(w') && (Right(w', id) <==> path == place || Brings(r, path, place) || Brings(r, place, path))
  {
    hide Tracked, WellFormed, RebasedBy;
    var w', r := Step(w, RebaseDeletes), w.holder.rename;
    StepKeeps(w, RebaseDeletes);
    assert Settled(w') == w.moves == Settled(w) + [r];
    PlaceMoves(w, w', r, id);
    RebasedPending(w.queue, r, id);
    BySame(w.queue.tasks[id].path, Place(w, id), r);
  }

  /** After a rebase without a move, a pending delete has the right path exactly when the rename brings its path to its
      object, or leaves a right one alone. */
  lemma ReplayRightIff(w: World, r: Rename, id: nat)
    requires Inv(w) && Enabled(w, ReplayRebase(r)) && id in w.queue.tasks
    requires Pending(Step(w, ReplayRebase(r)).queue, id)
    ensures var w' := Step(w, ReplayRebase(r)); var path, place := w.queue.tasks[id].path, Place(w, id);
            && Inv(w')
            && (Right(w', id) <==> if Matches(path, r.src, r.isDir) then Brings(r, path, place) else path == place)
            && (Right(w, id) ==> (Right(w', id) <==> !Matches(path, r.src, r.isDir)))
  {
    hide Tracked, WellFormed, RebasedBy;
    StepKeeps(w, ReplayRebase(r));
    assert Place(Step(w, ReplayRebase(r)), id) == Place(w, id);
    RebasedPending(w.queue, r, id);
    BySame(w.queue.tasks[id].path, w.queue.tasks[id].path, r);
  }

  /** A new delete starts out right, and no other step changes what is right. */
  lemma OthersRight(w: World, a: Action, id: nat)
    requires Inv(w) && Enabled(w, a) && !a.MoveUnreported? && !a.RebaseDeletes? && !a.ReplayRebase?
    requires id in Step(w, a).queue.tasks
    ensures Inv(Step(w, a)) && (Right(Step(w, a), id) <==> id !in w.queue.tasks || Right(w, id))
  {
    hide Tracked, WellFormed, Admit, WithRebase, Timed, Rewrite;
    StepKeeps(w, a);
    if a.DeletePath? {
      OthersEnqueued(w, a.path, a.isDir, a.hard, id);
    } else {
      OthersStay(w, a, id);
    }
  }

  lemma OthersStay(w: World, a: Action, id: nat)
    requires Shape(w) && Enabled(w, a) && !a.MoveUnreported? && !a.RebaseDeletes? && !a.ReplayRebase? && !a.DeletePath?
    requires id in Step(w, a).queue.tasks
    ensures var w' := Step(w, a);
            && Settled(w') == Settled(w) && id in w.queue.tasks && w'.queue.tasks[id].path == w.queue.tasks[id].path
            && w'.origin == w.origin && w'.born == w.born
  {
    hide Shape, Admit, WithRebase;
  }

  lemma OthersEnqueued(w: World, p: Path, isDir: bool, hard: bool, id: nat)
    requires Inv(w) && w.renaming.None? && id in Admit(w, p, isDir, hard).queue.tasks && Inv(Admit(w, p, isDir, hard))
    ensures Right(Admit(w, p, isDir, hard), id) <==> id !in w.queue.tasks || Right(w, id)
  {
    if Accepts(w.queue, p, isDir) {
      EnqueuedAdds(w.queue, w.next, p, isDir, hard);
      hide Accepts, Enqueued, Tracked, WellFormed;
      assert w.next !in w.queue.tasks;
    }
  }

  // ---------------------------------------------------------------- runs in which every delete hits its object

  function Owing(owed: Option<Rename>): seq<Rename> {
    if owed.Some? then [owed.value] else []
  }

  /** The queue knows of every move but for the one whose report was lost, if there is one. */
  ghost predicate InStep(w: World, owed: Option<Rename>) {
    Settled(w) == w.rebases + Owing(owed) && forall id :: id in w.born ==> w.born[id].moves == w.born[id].rebases
  }

  lemma InStepRight(w: World, id: nat)
    requires Inv(w) && InStep(w, None) && id in w.queue.tasks && Pending(w.queue, id)
    ensures Right(w, id)
  {
    assert Settled(w) == w.rebases;
    assert w.rebases[w.born[id].rebases..|w.rebases|] == w.rebases[w.born[id].rebases..];
    assert Tracks(w.queue.tasks[id].path, w.origin[id], w.born[id].rebases, |w.rebases|, w.rebases);
  }

  /** The move that is still owed a rebase after one step. */
  function Owed(w: World, a: Action, owed: Option<Rename>): Option<Rename> {
    if !Enabled(w, a) then owed
    else if a.MoveUnreported? then Some(w.holder.rename)
    else if a.ReplayRebase? then None
    else owed
  }

  /** A rebase without a move is the retry of a move whose report was lost, and no delete is taken or started, and
      nothing else moved, before it. */
  ghost predicate Mends(w: World, a: Action, owed: Option<Rename>) {
    Enabled(w, a) ==>
      match a
      case ReplayRebase(r) => owed == Some(r)
      case ClaimEntry(_) => true
      case FinishEntry(_) => true
      case _ => owed == None
  }

  lemma AdmitInStep(w: World, p: Path, isDir: bool, hard: bool)
    requires Inv(w) && InStep(w, None) && w.renaming.None?
    ensures InStep(Admit(w, p, isDir, hard), None)
  {
    hide Tracked, WellFormed, Accepts, Enqueued;
  }

  lemma RebaseInStep(w: World, a: Action, owed: Option<Rename>)
    requires Inv(w) && InStep(w, owed) && Mends(w, a, owed) && Enabled(w, a)
    requires a.RebaseDeletes? || a.ReplayRebase? || a.MoveUnreported?
    ensures InStep(Step(w, a), Owed(w, a, owed))
  {
    hide Tracked, WellFormed, RebasedBy;
    assert Settled(Step(w, a)) == Step(w, a).rebases + Owing(Owed(w, a, owed)) by {
      assert a.RebaseDeletes? ==> w.moves == Settled(w) + [w.holder.rename];
    }
  }

  lemma InStepKeeps(w: World, a: Action, owed: Option<Rename>)
    requires Inv(w) && InStep(w, owed) && Mends(w, a, owed)
    ensures InStep(Step(w, a), Owed(w, a, owed))
  {
    hide Tracked, WellFormed, Admit, WithRebase, Timed;
    if Enabled(w, a) {
      if a.DeletePath? {
        AdmitInStep(w, a.path, a.isDir, a.hard);
      } else if a.RebaseDeletes? || a.ReplayRebase? || a.MoveUnreported? {
        RebaseInStep(w, a, owed);
      } else {
        assert Settled(Step(w, a)) == Settled(w);
      }
    }
  }

  /** Every lost report of a run is mended by the retry before anything else comes in between. */
  ghost predicate Mended(w: World, trace: seq<Action>, owed: Option<Rename>)
    requires Shape(w)
    decreases |trace|
  {
    trace == [] || (Mends(w, trace[0], owed) && Mended(Step(w, trace[0]), trace[1..], Owed(w, trace[0], owed)))
  }

  /** Then every provider delete hits its object. */
  lemma {:induction false} MendedRunsHit(w: World, trace: seq<Action>, owed: Option<Rename>)
    requires Inv(w) && InStep(w, owed) && AllHit(w) && Mended(w, trace, owed)
    ensures AllHit(Run(w, trace))
    decreases |trace|
  {
    if trace == [] {
    } else {
      hide Shape, Timed, Tracked, AllHit, InStep, Right, Step;
      StepKeeps(w, trace[0]);
      InStepKeeps(w, trace[0], owed);
      StepHits(w, trace[0]);
      if trace[0].StartCall? && Enabled(w, trace[0]) {
        InStepRight(w, trace[0].id);
      }
      MendedRunsHit(Step(w, trace[0]), trace[1..], Owed(w, trace[0], owed));
    }
  }

  /** So it does whenever all moves report truthfully and no rename is retried after its move. */
  lemma {:induction false} PlainMended(w: World, trace: seq<Action>)
    requires Shape(w) && forall i :: 0 <= i < |trace| ==> !trace[i].MoveUnreported? && !trace[i].ReplayRebase?
    ensures Mended(w, trace, None)
    decreases |trace|
  {
    if trace == [] {
    } else {
      hide Step, Shape;
      assert !trace[0].MoveUnreported? && !trace[0].ReplayRebase?;
      assert forall i :: 0 <= i < |trace[1..]| ==> trace[1..][i] == trace[i + 1];
      PlainMended(Step(w, trace[0]), trace[1..]);
    }
  }

  lemma InitInStep()
    ensures Inv(INIT) && InStep(INIT, None) && AllHit(INIT) && KindsKept(INIT)
  {
  }

  // ---------------------------------------------------------------- deletes and moves exclude each other

  /** From the start of a provider delete to its end nothing is moved and no path of a delete is rewritten. */
  lemma {:induction false} NoMoveDuringDelete(w: World, id: nat, trace: seq<Action>)
    requires Shape(w) && w.holder == Deleting(id) && EndCall !in trace
    ensures var w' := Run(w, trace);
            && w'.holder == Deleting(id) && w'.moves == w.moves && w'.rebases == w.rebases && w'.calls == w.calls
            && (id in w.queue.running ==> id in w'.queue.running)
    decreases |trace|
  {
    if trace == [] {
    } else {
      assert trace[0] in trace;
      DeletingStays(w, id, trace[0]);
      hide Step, Shape;
      NoMoveDuringDelete(Step(w, trace[0]), id, trace[1..]);
    }
  }

  lemma DeletingStays(w: World, id: nat, a: Action)
    requires Shape(w) && w.holder == Deleting(id) && a != EndCall
    ensures var w' := Step(w, a);
            && w'.holder == Deleting(id) && w'.moves == w.moves && w'.rebases == w.rebases && w'.calls == w.calls
            && (id in w.queue.running ==> id in w'.queue.running)
  {
    hide WellFormed;
  }

  lemma StartHolds(w: World, id: nat)
    requires Shape(w) && Enabled(w, StartCall(id))
    ensures Step(w, StartCall(id)).holder == Deleting(id) && id in Step(w, StartCall(id)).calls
  {
  }

  /** Whether a step ends a rename: it is given up, its move fails or is not reported, or its rebase is done. */
  predicate EndsRename(a: Action) {
    a.AbortRename? || a.MoveFails? || a.MoveUnreported? || a.RebaseDeletes?
  }

  /** From the start of a rename to its end no delete is taken, and from its move to its rebase none starts; then deletes
      are taken and started again. */
  lemma RenameExcludes(w: World, a: Action)
    requires Shape(w) && w.renaming.Some? && Enabled(w, a)
    ensures var w' := Step(w, a);
            && (EndsRename(a) ==> w'.renaming.None? && !w'.holder.Moving? && !w'.holder.HasMoved?)
            && (!EndsRename(a) ==> w'.renaming == w.renaming)
            && w'.next == w.next && w'.origin == w.origin
            && (w.holder.Moving? || w.holder.HasMoved? ==> w'.calls == w.calls)
  {
    hide WellFormed, Admit, RebasedBy;
  }

  /** A rename that has begun can always go on. */
  lemma RenameGoesOn(w: World) returns (a: Action)
    requires Shape(w) && w.renaming.Some?
    ensures Enabled(w, a) && Step(w, a) != w
    ensures w.holder.Free? ==> Step(w, a).holder == Moving(w.renaming.value)
    ensures w.holder.Moving? ==> Step(w, a).holder == HasMoved(w.holder.rename)
    ensures w.holder.HasMoved? || w.holder.Deleting? ==> Step(w, a).holder == Free
  {
    hide WellFormed, Admit, RebasedBy;
    a := match w.holder
         case Free => LockMutation
         case Deleting(_) => EndCall
         case Moving(_) => MoveSucceeds
         case HasMoved(_) => RebaseDeletes;
  }

  // ---------------------------------------------------------------- the workers come to an end

  function Unstarted(q: Queue): set<nat>
    requires q.running <= q.tasks.Keys
  {
    set id | id in q.running && !q.tasks[id].started
  }

  /** What the workers have still to do. */
  ghost function Work(w: World): nat
    requires Shape(w)
  {
    5 * |w.queue.entries| + 2 * |Unstarted(w.queue)| + 2 * |w.queue.running| + if w.holder.Deleting? then 1 else 0
  }

  /** A step of a worker that does something. */
  predicate Useful(w: World, a: Action) {
    Enabled(w, a) &&
    match a
    case ClaimEntry(id) => Claimable(w.queue, id)
    case StartCall(_) => true
    case EndCall => true
    case FinishEntry(id) => id in w.queue.running
    case _ => false
  }

  ghost predicate Runs(w: World, trace: seq<Action>)
    requires Shape(w)
    decreases |trace|
  {
    trace == [] || (Useful(w, trace[0]) && Runs(Step(w, trace[0]), trace[1..]))
  }

  lemma ClaimWorks(w: World, id: nat)
    requires Shape(w) && Claimable(w.queue, id)
    ensures Work(Step(w, ClaimEntry(id))) < Work(w)
  {
    var q, q' := w.queue, Claimed(w.queue, id);
    var p := q.tasks[id].path;
    assert q.entries[p] == id;
    assert Unstarted(q') == Unstarted(q) + {id} && q'.running == q.running + {id};
    assert q'.entries.Keys == q.entries.Keys - {p};
    assert |q'.entries| == |q'.entries.Keys| && |q.entries| == |q.entries.Keys|;
  }

  lemma StartWorks(w: World, id: nat)
    requires Shape(w) && Enabled(w, StartCall(id))
    ensures Work(Step(w, StartCall(id))) < Work(w)
  {
    hide Admit, WithRebase;
    assert Unstarted(Started(w.queue, id)) == Unstarted(w.queue) - {id};
  }

  lemma FinishWorks(w: World, id: nat)
    requires Shape(w) && Enabled(w, FinishEntry(id)) && id in w.queue.running
    ensures Work(Step(w, FinishEntry(id))) < Work(w)
  {
    hide Admit, WithRebase;
    var q' := Finished(w.queue, id);
    assert q'.running == w.queue.running - {id} && Unstarted(q') == Unstarted(w.queue) - {id};
    assert id !in Unstarted(w.queue);
  }

  lemma OtherWorks(w: World, a: Action)
    requires Shape(w) && Useful(w, a) && !a.ClaimEntry?
    ensures Work(Step(w, a)) < Work(w)
  {
    hide Shape, Step, Work;
    if a.StartCall? {
      StartWorks(w, a.id);
    } else if a.FinishEntry? {
      FinishWorks(w, a.id);
    } else {
      EndWorks(w);
    }
  }

  lemma EndWorks(w: World)
    requires Shape(w) && w.holder.Deleting?
    ensures Work(Step(w, EndCall)) < Work(w)
  {
    hide Admit, WithRebase, WellFormed;
  }

  /** A delete that waits goes on waiting, or its provider call is made. */
  lemma WaitsOrCalled(w: World, a: Action, id: nat)
    requires Shape(w) && Useful(w, a) && (Pending(w.queue, id) || id in w.calls)
    ensures Pending(Step(w, a).queue, id) || id in Step(w, a).calls
  {
    hide Admit, WithRebase;
  }

  lemma StaysClear(w: World, a: Action)
    requires Shape(w) && Useful(w, a) && w.renaming.None? && (w.holder.Free? || w.holder.Deleting?)
    ensures var w' := Step(w, a); w'.renaming.None? && (w'.holder.Free? || w'.holder.Deleting?)
  {
    hide WellFormed;
  }

  /** While no rename is under way, every schedule of the workers is finite, and one that has nothing left to run has
      made the provider call of every delete that was waiting, and nothing waits or runs any more. */
  lemma {:induction false} DeletesDrain(w: World, trace: seq<Action>, id: nat)
    requires Shape(w) && Runs(w, trace) && w.renaming.None? && (w.holder.Free? || w.holder.Deleting?)
    ensures |trace| <= Work(w)
    ensures var w' := Run(w, trace);
            (forall a :: !Useful(w', a)) ==>
              && w'.queue.entries == map[] && w'.queue.running == {}
              && (Pending(w.queue, id) || id in w.calls ==> id in w'.calls)
    decreases |trace|
  {
    if trace == [] {
      if w.queue.entries != map[] || w.queue.running != {} {
        var a := SomethingUseful(w);
      }
    } else {
      hide Step, Shape, Pending, Work, Useful;
      var w' := Step(w, trace[0]);
      if trace[0].ClaimEntry? {
        UsefulClaim(w, trace[0]);
        ClaimWorks(w, trace[0].id);
      } else {
        OtherWorks(w, trace[0]);
      }
      StaysClear(w, trace[0]);
      if Pending(w.queue, id) || id in w.calls {
        WaitsOrCalled(w, trace[0], id);
      }
      DeletesDrain(w', trace[1..], id);
    }
  }

  lemma UsefulClaim(w: World, a: Action)
    requires Useful(w, a) && a.ClaimEntry?
    ensures Claimable(w.queue, a.id)
  {
  }

  /** While a delete waits or runs, some worker can go on. */
  lemma SomethingUseful(w: World) returns (a: Action)
    requires Shape(w) && w.renaming.None? && (w.holder.Free? || w.holder.Deleting?)
    requires w.queue.entries != map[] || w.queue.running != {}
    ensures Useful(w, a)
  {
    if w.holder.Deleting? {
      a := EndCall;
    } else if w.queue.running != {} {
      var id :| id in w.queue.running;
      a := if w.queue.tasks[id].started then FinishEntry(id) else StartCall(id);
    } else {
      var p :| p in w.queue.entries;
      a := ClaimEntry(w.queue.entries[p]);
    }
  }
}
