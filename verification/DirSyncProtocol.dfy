/** The threads of dir_sync_queue.go interleaved: callers, the dispatcher, its two workers, renames, shutdown. */
module DirSyncProtocol {
  import opened VirtualPaths
  import opened DirSyncQueue
  import opened Counting

  const DIR_SYNC_WORKER_COUNT := 2

  /** Where an accepted entry is. `Created` stands for the end of the provider call, whatever it answered. */
  datatype Stage = Sending | Queued | Held | Starting | HeldDone | Submitted | Creating(target: Path) | Created | Over

  datatype Dispatcher = Idle | Busy(id: nat) | Exited

  datatype Shutdown = Open | Closing | ChannelClosed | Returned

  /** Entry IDs count up from 0, so `stage` lists all entries. `created` holds the path of each entry's provider create,
      and `failed` the entries that the pool has refused. */
  datatype World = World(
    queue: Queue, stage: seq<Stage>, dispatcher: Dispatcher, shutdown: Shutdown,
    enqueueWG: int, wg: int, created: map<nat, Path>, failed: set<nat>)

  const INIT := World(EMPTY, [], Idle, Open, 0, 1, map[], {})

  datatype Action =
    | Enqueue(path: Path)
    | RebaseAndFence(src: Path, dst: Path, isDir: bool)
    | BeginShutdown
    | Send(id: nat)
    | Receive(id: nat)
    | Mark
    | Submit
    | SubmitFails
    | FinishHeld
    | BeginFlush(id: nat)
    | EndCreate(id: nat)
    | FinishCreated(id: nat)
    | CloseChannel
    | ExitDispatcher
    | ReturnShutdown

  predicate At(w: World, id: nat, s: Stage) {
    id < |w.stage| && w.stage[id] == s
  }

  predicate HeldAt(w: World, s: Stage) {
    w.dispatcher.Busy? && At(w, w.dispatcher.id, s)
  }

  predicate Enabled(w: World, a: Action) {
    match a
    case Enqueue(p) => Accepts(w.queue, p)
    case RebaseAndFence(src, dst, isDir) => src != [] && dst != [] && Apart(src, dst, isDir)
    case BeginShutdown => w.shutdown.Open?
    case Send(id) => At(w, id, Sending)
    case Receive(id) => w.dispatcher.Idle? && At(w, id, Queued)
    case Mark => HeldAt(w, Held)
    case Submit => HeldAt(w, Starting) && w.wg <= DIR_SYNC_WORKER_COUNT
    case SubmitFails => HeldAt(w, Starting)
    case FinishHeld => HeldAt(w, HeldDone)
    case BeginFlush(id) => At(w, id, Submitted)
    case EndCreate(id) => id < |w.stage| && w.stage[id].Creating?
    case FinishCreated(id) => At(w, id, Created)
    case CloseChannel => w.shutdown.Closing? && w.enqueueWG == 0
    case ExitDispatcher => w.shutdown.ChannelClosed? && w.dispatcher.Idle? && Queued !in w.stage
    case ReturnShutdown => w.shutdown.ChannelClosed? && w.wg == 0
  }

  /** The steps that the queue's own threads and a waiting shutdown take without any caller. */
  predicate Internal(a: Action) {
    !a.Enqueue? && !a.RebaseAndFence? && !a.BeginShutdown?
  }

  // ---------------------------------------------------------------- counting entries by stage

  function Senders(s: Stage): nat {
    if s.Sending? then 1 else 0
  }

  function Workers(s: Stage): nat {
    if s.Submitted? || s.Creating? || s.Created? then 1 else 0
  }

  function Remaining(s: Stage): nat {
    match s
    case Sending => 7
    case Queued => 6
    case Held => 5
    case Starting => 4
    case Submitted => 3
    case Creating(_) => 2
    case Created => 1
    case HeldDone => 1
    case Over => 0
  }

  // ---------------------------------------------------------------- the invariant

  predicate EntryOK(q: Queue, id: nat, s: Stage)
    requires id in q.memory
  {
    var e := q.memory[id];
    match s
    case Sending => !e.running && (Live(q, id) || e.canceled)
    case Queued => !e.running && (Live(q, id) || e.canceled)
    case Held => !e.running && (Live(q, id) || e.canceled)
    case HeldDone => (Live(q, id) && e.running) || (e.canceled && !e.running)
    case Starting => Live(q, id) && e.running
    case Submitted => Live(q, id) && e.running
    case Creating(target) => Live(q, id) && e.running && target == e.path
    case Created => Live(q, id) && e.running
    case Over => e.done && !e.running
  }

  ghost predicate EntriesOK(q: Queue, stage: seq<Stage>) {
    && WellFormed(q)
    && (forall id :: id in q.memory <==> 0 <= id < |stage|)
    && forall id :: 0 <= id < |stage| ==> EntryOK(q, id, stage[id])
  }

  predicate InHand(s: Stage) {
    s.Held? || s.Starting? || s.HeldDone?
  }

  ghost predicate ThreadsOK(w: World) {
    && (forall id :: 0 <= id < |w.stage| && InHand(w.stage[id]) ==> w.dispatcher == Busy(id))
    && (w.dispatcher.Busy? ==> w.dispatcher.id < |w.stage| && InHand(w.stage[w.dispatcher.id]))
    && w.enqueueWG == Weight(w.stage, Senders)
    && w.wg == Weight(w.stage, Workers) + (if w.dispatcher.Exited? then 0 else 1)
    && Weight(w.stage, Workers) <= DIR_SYNC_WORKER_COUNT
    && (!w.shutdown.Open? ==> w.queue.closed)
    && (w.shutdown.ChannelClosed? || w.shutdown.Returned? ==> w.enqueueWG == 0)
    && (w.dispatcher.Exited? ==> Queued !in w.stage && (w.shutdown.ChannelClosed? || w.shutdown.Returned?))
    && (w.shutdown.Returned? ==> w.wg == 0)
  }

  ghost predicate Inv(w: World) {
    EntriesOK(w.queue, w.stage) && ThreadsOK(w)
  }

  /** One step of any thread; a step that is not enabled changes nothing. */
  ghost function Step(w: World, a: Action): World
    requires Inv(w)
  {
    if !Enabled(w, a) then w
    else match a
      case Enqueue(p) =>
        w.(queue := Enqueued(w.queue, |w.stage|, p), stage := w.stage + [Sending], enqueueWG := w.enqueueWG + 1)
      case RebaseAndFence(src, dst, isDir) => w.(queue := Fenced(w.queue, src, dst, isDir))
      case BeginShutdown => w.(queue := w.queue.(closed := true), shutdown := Closing)
      case Send(id) => w.(stage := w.stage[id := Queued], enqueueWG := w.enqueueWG - 1)
      case Receive(id) => w.(stage := w.stage[id := Held], dispatcher := Busy(id))
      case Mark =>
        var (queue, ok) := Dispatched(w.queue, w.dispatcher.id);
        w.(queue := queue, stage := w.stage[w.dispatcher.id := if ok then Starting else HeldDone])
      case Submit => w.(stage := w.stage[w.dispatcher.id := Submitted], dispatcher := Idle, wg := w.wg + 1)
      case SubmitFails =>
        w.(stage := w.stage[w.dispatcher.id := HeldDone], failed := w.failed + {w.dispatcher.id})
      case FinishHeld =>
        w.(queue := Finished(w.queue, w.dispatcher.id), stage := w.stage[w.dispatcher.id := Over], dispatcher := Idle)
      case BeginFlush(id) =>
        var e := w.queue.memory[id];
        w.(stage := w.stage[id := if e.canceled then Created else Creating(e.path)])
      case EndCreate(id) => w.(stage := w.stage[id := Created], created := w.created[id := w.stage[id].target])
      case FinishCreated(id) =>
        w.(queue := Finished(w.queue, id), stage := w.stage[id := Over], wg := w.wg - 1)
      case CloseChannel => w.(shutdown := ChannelClosed)
      case ExitDispatcher => w.(dispatcher := Exited, wg := w.wg - 1)
      case ReturnShutdown => w.(shutdown := Returned)
  }

  // ---------------------------------------------------------------- every step keeps the invariant

  lemma StageOK(q: Queue, stage: seq<Stage>, id: nat, s: Stage)
    requires EntriesOK(q, stage) && id < |stage| && EntryOK(q, id, s)
    ensures EntriesOK(q, stage[id := s])
  {
    hide WellFormed, EntryOK;
  }

  lemma EnqueueOK(q: Queue, stage: seq<Stage>, p: Path)
    requires EntriesOK(q, stage) && Accepts(q, p)
    ensures EntriesOK(Enqueued(q, |stage|, p), stage + [Sending])
  {
    EnqueuedWellFormed(q, |stage|, p);
    var q' := Enqueued(q, |stage|, p);
    forall id | id in q.memory
      ensures EntryOK(q', id, stage[id])
    {
      hide WellFormed;
      assert Live(q, id) ==> Live(q', id);
    }
  }

  lemma MarkOK(q: Queue, stage: seq<Stage>, id: nat)
    requires EntriesOK(q, stage) && id < |stage| && stage[id] == Held && !q.memory[id].canceled
    ensures EntriesOK(Marked(q, id), stage[id := Starting])
  {
    MarkedWellFormed(q, id);
    hide WellFormed;
    var q' := Marked(q, id);
    forall i | i in q.memory && i != id
      ensures EntryOK(q', i, stage[i])
    {
      assert Live(q', i) <==> Live(q, i);
    }
  }

  lemma FinishOK(q: Queue, stage: seq<Stage>, id: nat)
    requires EntriesOK(q, stage) && id < |stage|
    ensures EntriesOK(Finished(q, id), stage[id := Over])
  {
    FinishedWellFormed(q, id);
    hide WellFormed;
    var q' := Finished(q, id);
    forall i | i in q.memory && i != id
      ensures EntryOK(q', i, stage[i])
    {
      assert Live(q', i) <==> Live(q, i);
    }
  }

  /** A fence moves or cancels only entries that have not been started. */
  lemma FenceKeepsStarted(q: Queue, src: Path, dst: Path, isDir: bool, id: nat)
    requires WellFormed(q) && Apart(src, dst, isDir) && src != [] && dst != [] && id in q.memory
    ensures var q' := Fenced(q, src, dst, isDir);
            && id in q'.memory
            && (q.memory[id].running || !Live(q, id) ==> q'.memory[id] == q.memory[id])
            && (Live(q, id) ==> Live(q', id) || (q'.memory[id].canceled && q'.memory[id].done && !q'.memory[id].running))
            && (q.memory[id].running ==> Live(q', id))
            && (!q.memory[id].running ==> !q'.memory[id].running)
  {
    if Live(q, id) {
      assert Keyed(q, q.memory[id].path);
      LiveAfter(q, src, dst, isDir, id);
    }
  }

  lemma FenceOK(q: Queue, stage: seq<Stage>, src: Path, dst: Path, isDir: bool)
    requires EntriesOK(q, stage) && Apart(src, dst, isDir) && src != [] && dst != []
    ensures EntriesOK(Fenced(q, src, dst, isDir), stage)
  {
    FencedWellFormed(q, src, dst, isDir);
    FencedMemory(q, src, dst, isDir);
    hide WellFormed, Fenced;
    forall id | id in q.memory
      ensures EntryOK(Fenced(q, src, dst, isDir), id, stage[id])
    {
      FenceKeepsStarted(q, src, dst, isDir, id);
      if stage[id].HeldDone? || stage[id].Over? {
        NotLiveOver(q, id);
      }
    }
  }

  lemma NotLiveOver(q: Queue, id: nat)
    requires WellFormed(q) && id in q.memory
    ensures q.memory[id].canceled || q.memory[id].done ==> !Live(q, id)
  {
    assert Live(q, id) ==> Keyed(q, q.memory[id].path);
  }

  lemma StepEntries(w: World, a: Action)
    requires Inv(w)
    ensures EntriesOK(Step(w, a).queue, Step(w, a).stage)
  {
    hide EntriesOK, WellFormed, ThreadsOK, Weight;
    if Enabled(w, a) {
      match a {
        case Enqueue(p) => EnqueueOK(w.queue, w.stage, p);
        case RebaseAndFence(src, dst, isDir) => FenceOK(w.queue, w.stage, src, dst, isDir);
        case BeginShutdown => CloseOK(w.queue, w.stage);
        case Send(id) => StagedOK(w.queue, w.stage, id); StageOK(w.queue, w.stage, id, Queued);
        case Receive(id) => StagedOK(w.queue, w.stage, id); StageOK(w.queue, w.stage, id, Held);
        case Mark =>
          StagedOK(w.queue, w.stage, w.dispatcher.id);
          if w.queue.memory[w.dispatcher.id].canceled {
            StageOK(w.queue, w.stage, w.dispatcher.id, HeldDone);
          } else {
            MarkOK(w.queue, w.stage, w.dispatcher.id);
          }
        case Submit =>
          StagedOK(w.queue, w.stage, w.dispatcher.id);
          StageOK(w.queue, w.stage, w.dispatcher.id, Submitted);
        case SubmitFails =>
          StagedOK(w.queue, w.stage, w.dispatcher.id);
          StageOK(w.queue, w.stage, w.dispatcher.id, HeldDone);
        case FinishHeld => FinishOK(w.queue, w.stage, w.dispatcher.id);
        case BeginFlush(id) => StagedOK(w.queue, w.stage, id); StageOK(w.queue, w.stage, id, Step(w, a).stage[id]);
        case EndCreate(id) => StagedOK(w.queue, w.stage, id); StageOK(w.queue, w.stage, id, Created);
        case FinishCreated(id) => FinishOK(w.queue, w.stage, id);
        case _ =>
      }
    }
  }

  lemma StagedOK(q: Queue, stage: seq<Stage>, id: nat)
    requires EntriesOK(q, stage) && id < |stage|
    ensures id in q.memory && EntryOK(q, id, stage[id]) && (Live(q, id) ==> !q.memory[id].canceled)
  {
    NotLiveOver(q, id);
  }

  lemma CloseOK(q: Queue, stage: seq<Stage>)
    requires EntriesOK(q, stage)
    ensures EntriesOK(q.(closed := true), stage)
  {
    forall id | id in q.memory
      ensures EntryOK(q.(closed := true), id, stage[id])
    {
      assert EntryOK(q, id, stage[id]);
    }
  }

  lemma Recount(stage: seq<Stage>, id: nat, s: Stage)
    requires id < |stage|
    ensures Weight(stage[id := s], Senders) == Weight(stage, Senders) - Senders(stage[id]) + Senders(s)
    ensures Weight(stage[id := s], Workers) == Weight(stage, Workers) - Workers(stage[id]) + Workers(s)
  {
    WeightUpdate(stage, id, s, Senders);
    WeightUpdate(stage, id, s, Workers);
  }

  /** A step of the dispatcher on the entry it holds. */
  lemma HeldThreads(w: World, a: Action)
    requires Inv(w) && Enabled(w, a) && (a.Mark? || a.Submit? || a.SubmitFails? || a.FinishHeld?)
    ensures ThreadsOK(Step(w, a))
  {
    hide EntriesOK, Weight, WellFormed;
    Recount(w.stage, w.dispatcher.id, Step(w, a).stage[w.dispatcher.id]);
  }

  /** A step that moves one entry outside the dispatcher's hands. */
  lemma EntryThreads(w: World, a: Action)
    requires Inv(w) && Enabled(w, a)
    requires a.Send? || a.Receive? || a.BeginFlush? || a.EndCreate? || a.FinishCreated?
    ensures ThreadsOK(Step(w, a))
  {
    hide EntriesOK, Weight, WellFormed;
    Recount(w.stage, a.id, Step(w, a).stage[a.id]);
    if a.Send? {
      WeightAtLeast(w.stage, a.id, Senders);
    }
  }

  lemma StepThreads(w: World, a: Action)
    requires Inv(w)
    ensures ThreadsOK(Step(w, a))
  {
    hide EntriesOK, Weight, WellFormed, Fenced;
    if Enabled(w, a) {
      if a.Enqueue? {
        WeightSnoc(w.stage, Sending, Senders);
        WeightSnoc(w.stage, Sending, Workers);
      } else if a.Mark? || a.Submit? || a.SubmitFails? || a.FinishHeld? {
        HeldThreads(w, a);
      } else if a.Send? || a.Receive? || a.BeginFlush? || a.EndCreate? || a.FinishCreated? {
        EntryThreads(w, a);
      } else if a.RebaseAndFence? {
        FencedClosed(w.queue, a.src, a.dst, a.isDir);
      }
    }
  }

  lemma FencedClosed(q: Queue, src: Path, dst: Path, isDir: bool)
    ensures Fenced(q, src, dst, isDir).closed == q.closed
  {
  }

  lemma StepKeeps(w: World, a: Action)
    requires Inv(w)
    ensures Inv(Step(w, a))
  {
    StepEntries(w, a);
    StepThreads(w, a);
  }

  ghost function Run(w: World, trace: seq<Action>): World
    requires Inv(w)
    decreases |trace|
  {
    if trace == [] then w
    else
      StepKeeps(w, trace[0]);
      Run(Step(w, trace[0]), trace[1..])
  }

  lemma {:induction false} RunKeeps(w: World, trace: seq<Action>)
    requires Inv(w)
    ensures Inv(Run(w, trace))
    decreases |trace|
  {
    if trace == [] {
    } else {
      StepKeeps(w, trace[0]);
      RunKeeps(Step(w, trace[0]), trace[1..]);
    }
  }

  lemma InitInv()
    ensures Inv(INIT)
  {
  }

  // ---------------------------------------------------------------- what holds over whole runs

  /** In every reachable state two running creates never share a path, each key is its entry's path, no cancelled
      or finished entry is in the map, at most two creates are in flight, and each targets its entry's path. */
  lemma ReachableStates(trace: seq<Action>)
    ensures Inv(INIT)
    ensures var w := Run(INIT, trace); var q := w.queue;
            && (forall p :: p in q.entries ==> Keyed(q, p))
            && (forall i, j :: (i in q.memory && j in q.memory && q.memory[i].running && q.memory[j].running
                                && q.memory[i].path == q.memory[j].path) ==> i == j)
            && (forall id :: 0 <= id < |w.stage| && w.stage[id].Creating? ==>
                               id in q.memory && q.memory[id].running && w.stage[id].target == q.memory[id].path)
            && Weight(w.stage, Workers) <= DIR_SYNC_WORKER_COUNT
  {
    hide Fenced, Weight;
    InitInv();
    RunKeeps(INIT, trace);
    var w := Run(INIT, trace);
    forall id | 0 <= id < |w.stage| && w.stage[id].Creating?
      ensures EntryOK(w.queue, id, w.stage[id])
    {
    }
  }

  /** An entry that has been started, or finished, keeps its path for ever; a finished one stays finished. */
  lemma StepKeepsPath(w: World, a: Action, id: nat)
    requires Inv(w) && id in w.queue.memory && (w.queue.memory[id].running || w.queue.memory[id].done)
    ensures var m := Step(w, a).queue.memory;
            && id in m && m[id].path == w.queue.memory[id].path
            && (m[id].running || m[id].done) && (w.queue.memory[id].done ==> m[id].done)
  {
    hide Fenced, Weight;
    NotLiveOver(w.queue, id);
    if a.RebaseAndFence? && Enabled(w, a) {
      FenceKeepsStarted(w.queue, a.src, a.dst, a.isDir, id);
    }
  }

  lemma {:induction false} StartedPathFixed(w: World, trace: seq<Action>, id: nat)
    requires Inv(w) && id in w.queue.memory && (w.queue.memory[id].running || w.queue.memory[id].done)
    ensures var m := Run(w, trace).queue.memory;
            && id in m && m[id].path == w.queue.memory[id].path
            && (m[id].running || m[id].done) && (w.queue.memory[id].done ==> m[id].done)
    decreases |trace|
  {
    if trace == [] {
    } else {
      StepKeeps(w, trace[0]);
      StepKeepsPath(w, trace[0], id);
      StartedPathFixed(Step(w, trace[0]), trace[1..], id);
    }
  }

  /** By the time shutdown returns every accepted entry is done. */
  lemma ShutdownClosesAll(w: World, id: nat)
    requires Inv(w) && w.shutdown.Returned? && id in w.queue.memory
    ensures w.queue.memory[id].done
  {
    WeightAtLeast(w.stage, id, Senders);
    WeightAtLeast(w.stage, id, Workers);
    assert EntryOK(w.queue, id, w.stage[id]);
    assert w.stage[id] in w.stage;
  }

  /** The dispatcher can hand an entry over exactly while fewer than two creates are in flight. */
  lemma SubmitIff(w: World)
    requires Inv(w) && HeldAt(w, Starting)
    ensures Enabled(w, Submit) <==> Weight(w.stage, Workers) < 2
  {
    hide Weight, EntriesOK;
  }

  /** Nothing is stuck: while an entry is unfinished, or shutdown has begun and not returned, some step of the
      queue's own threads is enabled. */
  lemma Progress(w: World) returns (a: Action)
    requires Inv(w) && w.shutdown != Returned
    requires w.shutdown != Open || exists id :: id in w.queue.memory && !w.queue.memory[id].done
    ensures Internal(a) && Enabled(w, a)
  {
    hide EntriesOK;
    if w.wg > (if w.dispatcher.Exited? then 0 else 1) {
      var id := WeightPositive(w.stage, Workers);
      a := if w.stage[id].Submitted? then BeginFlush(id) else if w.stage[id].Creating? then EndCreate(id)
           else FinishCreated(id);
    } else if w.dispatcher.Busy? {
      var id := w.dispatcher.id;
      a := if w.stage[id].Held? then Mark else if w.stage[id].Starting? then Submit else FinishHeld;
    } else if w.enqueueWG > 0 {
      var id := WeightPositive(w.stage, Senders);
      a := Send(id);
    } else if Queued in w.stage {
      var id :| 0 <= id < |w.stage| && w.stage[id] == Queued;
      a := Receive(id);
    } else if w.shutdown.Open? {
      var id :| id in w.queue.memory && !w.queue.memory[id].done;
      AllOver(w, id);
      assert false;
    } else {
      a := if w.shutdown.Closing? then CloseChannel else if w.dispatcher.Exited? then ReturnShutdown else ExitDispatcher;
    }
  }

  lemma AllOver(w: World, id: nat)
    requires Inv(w) && id in w.queue.memory && Queued !in w.stage && w.enqueueWG == 0 && !w.dispatcher.Busy?
    requires w.wg <= if w.dispatcher.Exited? then 0 else 1
    ensures w.queue.memory[id].done
  {
    WeightAtLeast(w.stage, id, Senders);
    WeightAtLeast(w.stage, id, Workers);
    assert EntryOK(w.queue, id, w.stage[id]);
    assert w.stage[id] in w.stage;
  }

  /** What the threads still have to do. */
  function Work(w: World): nat {
    Weight(w.stage, Remaining)
    + (match w.shutdown case Open => 3 case Closing => 2 case ChannelClosed => 1 case Returned => 0)
    + (if w.dispatcher.Exited? then 0 else 1)
  }

  lemma InternalDecreases(w: World, a: Action)
    requires Inv(w) && Internal(a) && Enabled(w, a)
    ensures Work(Step(w, a)) < Work(w)
  {
    hide EntriesOK, Weight, Finished, Marked;
    if a.Mark? || a.Submit? || a.SubmitFails? || a.FinishHeld? {
      WeightUpdate(w.stage, w.dispatcher.id, Step(w, a).stage[w.dispatcher.id], Remaining);
    } else if a.Send? || a.Receive? || a.BeginFlush? || a.EndCreate? || a.FinishCreated? {
      WeightUpdate(w.stage, a.id, Step(w, a).stage[a.id], Remaining);
    }
  }

  ghost predicate AllDone(q: Queue) {
    forall id :: id in q.memory ==> q.memory[id].done
  }

  ghost predicate Runs(w: World, trace: seq<Action>)
    requires Inv(w)
    decreases |trace|
  {
    trace == [] || (Internal(trace[0]) && Enabled(w, trace[0])
                    && (StepKeeps(w, trace[0]); Runs(Step(w, trace[0]), trace[1..])))
  }

  /** Every schedule of the threads alone is finite, and one that has nothing left to run has finished every entry
      and, if shutdown had begun, has returned from it: every wait on a barrier ends. */
  lemma {:induction false} ThreadsDrain(w: World, trace: seq<Action>)
    requires Inv(w) && Runs(w, trace)
    ensures |trace| <= Work(w)
    ensures var w' := Run(w, trace);
            (forall a :: Internal(a) ==> !Enabled(w', a))
            ==> AllDone(w'.queue) && (w'.shutdown == Open || w'.shutdown == Returned)
    decreases |trace|
  {
    if trace == [] {
      if w.shutdown != Returned && (w.shutdown != Open || !AllDone(w.queue)) {
        var a := Progress(w);
      } else if w.shutdown == Returned {
        forall id | id in w.queue.memory ensures w.queue.memory[id].done { ShutdownClosesAll(w, id); }
      }
    } else {
      StepKeeps(w, trace[0]);
      InternalDecreases(w, trace[0]);
      ThreadsDrain(Step(w, trace[0]), trace[1..]);
    }
  }

  /** No step of the threads takes a shutdown back. */
  lemma {:induction false} StaysClosed(w: World, trace: seq<Action>)
    requires Inv(w) && w.shutdown != Open
    ensures Inv(Run(w, trace)) && Run(w, trace).shutdown != Open
    decreases |trace|
  {
    if trace == [] {
    } else {
      hide Inv;
      StepKeeps(w, trace[0]);
      StepClosed(w, trace[0]);
      StaysClosed(Step(w, trace[0]), trace[1..]);
    }
  }

  lemma StepClosed(w: World, a: Action)
    requires Inv(w)
    ensures w.shutdown != Open ==> Step(w, a).shutdown != Open
  {
    hide EntriesOK, Weight, Fenced;
  }

  /** A shutdown that is begun refuses all further creates, and has returned with every entry done once the threads have
      nothing left to run. */
  lemma ShutdownReturns(w: World, trace: seq<Action>)
    requires Inv(w) && w.shutdown.Open? && Inv(Step(w, BeginShutdown)) && Runs(Step(w, BeginShutdown), trace)
    requires var w' := Run(Step(w, BeginShutdown), trace); forall a :: Internal(a) ==> !Enabled(w', a)
    ensures Step(w, BeginShutdown).queue.closed
    ensures var w' := Run(Step(w, BeginShutdown), trace); w'.shutdown == Returned && AllDone(w'.queue)
  {
    var w1 := Step(w, BeginShutdown);
    assert w1.shutdown != Open && w1.queue.closed;
    hide Step, Inv, Enabled;
    StaysClosed(w1, trace);
    ThreadsDrain(w1, trace);
  }

  // ---------------------------------------------------------------- what becomes of a create that was asked for

  /** What the records say of an entry by its stage. */
  predicate RecordOK(e: Entry, s: Stage, id: nat, created: map<nat, Path>, failed: set<nat>) {
    match s
    case Created => id in created && created[id] == e.path
    case HeldDone => e.canceled || id in failed
    case Over => e.canceled || id in failed || (id in created && created[id] == e.path)
    case _ => true
  }

  ghost predicate Recorded(w: World)
    requires Inv(w)
  {
    forall id :: 0 <= id < |w.stage| ==> RecordOK(w.queue.memory[id], w.stage[id], id, w.created, w.failed)
  }

  /** What a step does not change about an entry that keeps its stage. */
  lemma StepKeepsRecord(w: World, a: Action, id: nat)
    requires Inv(w) && Enabled(w, a) && id < |w.stage| && Step(w, a).stage[id] == w.stage[id]
    requires RecordOK(w.queue.memory[id], w.stage[id], id, w.created, w.failed)
    ensures var w' := Step(w, a);
            id in w'.queue.memory && RecordOK(w'.queue.memory[id], w'.stage[id], id, w'.created, w'.failed)
  {
    hide WellFormed, Weight, Fenced;
    assert EntryOK(w.queue, id, w.stage[id]);
    if a.RebaseAndFence? {
      FenceKeepsStarted(w.queue, a.src, a.dst, a.isDir, id);
      if w.stage[id].Over? || w.stage[id].HeldDone? {
        NotLiveOver(w.queue, id);
      }
    }
  }

  lemma StepRecords(w: World, a: Action)
    requires Inv(w) && Recorded(w)
    ensures Inv(Step(w, a)) && Recorded(Step(w, a))
  {
    StepKeeps(w, a);
    var w' := Step(w, a);
    forall id | 0 <= id < |w'.stage|
      ensures RecordOK(w'.queue.memory[id], w'.stage[id], id, w'.created, w'.failed)
    {
      if Enabled(w, a) && id < |w.stage| {
        if w'.stage[id] == w.stage[id] {
          StepKeepsRecord(w, a, id);
        } else {
          StepMovesRecord(w, a, id);
        }
      }
    }
  }

  lemma StepMovesRecord(w: World, a: Action, id: nat)
    requires Inv(w) && Enabled(w, a) && id < |w.stage| && Step(w, a).stage[id] != w.stage[id]
    requires RecordOK(w.queue.memory[id], w.stage[id], id, w.created, w.failed)
    ensures var w' := Step(w, a);
            id in w'.queue.memory && RecordOK(w'.queue.memory[id], w'.stage[id], id, w'.created, w'.failed)
  {
    hide Weight, Fenced;
    assert EntryOK(w.queue, id, w.stage[id]);
    NotLiveOver(w.queue, id);
  }

  /** The entry that stands for a create after one step: a waiting one whose target is taken is merged into the entry
      there. */
  ghost function Carrier(w: World, a: Action, id: nat): nat
    requires Inv(w) && id in w.queue.memory
  {
    var e := w.queue.memory[id];
    if a.RebaseAndFence? && Enabled(w, a) && !e.running && !e.done && Matches(e.path, a.src, a.isDir)
       && Rebase(e.path, a.src, a.dst) in w.queue.entries
    then w.queue.entries[Rebase(e.path, a.src, a.dst)]
    else id
  }

  /** And its path: a fence renames it while it waits. */
  ghost function Carried(w: World, a: Action, id: nat): Path
    requires Inv(w) && id in w.queue.memory
  {
    var e := w.queue.memory[id];
    if a.RebaseAndFence? && Enabled(w, a) && !e.running && !e.done then Renamed(e.path, a.src, a.dst, a.isDir)
    else e.path
  }

  ghost predicate Stands(q: Queue, id: nat, p: Path) {
    id in q.memory && q.memory[id].path == p && !q.memory[id].canceled
  }

  lemma CarrierStands(w: World, a: Action, id: nat)
    requires Inv(w) && id in w.queue.memory && !w.queue.memory[id].canceled
    ensures Stands(Step(w, a).queue, Carrier(w, a, id), Carried(w, a, id))
  {
    hide Weight, Fenced, ThreadsOK;
    if a.RebaseAndFence? && Enabled(w, a) {
      FenceCarries(w.queue, a.src, a.dst, a.isDir, id);
    }
  }

  lemma FenceCarries(q: Queue, src: Path, dst: Path, isDir: bool, id: nat)
    requires WellFormed(q) && Apart(src, dst, isDir) && src != [] && dst != [] && id in q.memory && !q.memory[id].canceled
    ensures var e, q' := q.memory[id], Fenced(q, src, dst, isDir); var t := Renamed(e.path, src, dst, isDir);
            if e.running || e.done || !Matches(e.path, src, isDir) then Stands(q', id, e.path)
            else if t in q.entries then Stands(q', q.entries[t], t)
            else Stands(q', id, t)
  {
    hide Fenced;
    var e := q.memory[id];
    NotLiveOver(q, id);
    FenceKeepsStarted(q, src, dst, isDir, id);
    if Live(q, id) {
      assert Keyed(q, e.path);
      LiveAfter(q, src, dst, isDir, id);
      FencedCanceled(q, src, dst, isDir, id);
      if Matches(e.path, src, isDir) && Rebase(e.path, src, dst) in q.entries {
        var t := Rebase(e.path, src, dst);
        assert Keyed(q, t);
        RebaseInverse(e.path, src, dst, isDir);
        LiveAfter(q, src, dst, isDir, q.entries[t]);
        FencedCanceled(q, src, dst, isDir, q.entries[t]);
      }
    }
  }

  /** Only a merge cancels. */
  lemma FencedCanceled(q: Queue, src: Path, dst: Path, isDir: bool, id: nat)
    requires id in q.memory && !q.memory[id].canceled
    ensures var q' := Fenced(q, src, dst, isDir);
            && id in q'.memory
            && (q'.memory[id].canceled ==>
                  && Live(q, id) && Waiting(q, q.memory[id].path) && Matches(q.memory[id].path, src, isDir)
                  && Rebase(q.memory[id].path, src, dst) in q.entries)
  {
  }

  ghost function CarrierAfter(w: World, id: nat, trace: seq<Action>): nat
    requires Inv(w) && id in w.queue.memory && !w.queue.memory[id].canceled
    decreases |trace|
  {
    if trace == [] then id
    else
      StepKeeps(w, trace[0]);
      CarrierStands(w, trace[0], id);
      CarrierAfter(Step(w, trace[0]), Carrier(w, trace[0], id), trace[1..])
  }

  /** The path of a create as the fences of a run rename it. */
  ghost function PathAfter(w: World, id: nat, trace: seq<Action>): Path
    requires Inv(w) && id in w.queue.memory && !w.queue.memory[id].canceled
    decreases |trace|
  {
    if trace == [] then w.queue.memory[id].path
    else
      StepKeeps(w, trace[0]);
      CarrierStands(w, trace[0], id);
      PathAfter(Step(w, trace[0]), Carrier(w, trace[0], id), trace[1..])
  }

  lemma {:induction false} RunCarries(w: World, id: nat, trace: seq<Action>)
    requires Inv(w) && Recorded(w) && id in w.queue.memory && !w.queue.memory[id].canceled
    ensures Inv(Run(w, trace)) && Recorded(Run(w, trace))
    ensures Stands(Run(w, trace).queue, CarrierAfter(w, id, trace), PathAfter(w, id, trace))
    decreases |trace|
  {
    if trace == [] {
    } else {
      hide Step, Recorded, Inv, Carrier;
      StepRecords(w, trace[0]);
      CarrierStands(w, trace[0], id);
      RunCarries(Step(w, trace[0]), Carrier(w, trace[0], id), trace[1..]);
    }
  }

  lemma DoneIsOver(w: World, id: nat)
    requires Inv(w) && Recorded(w) && id in w.queue.memory && !w.queue.memory[id].canceled && w.queue.memory[id].done
    ensures id in w.failed || (id in w.created && w.created[id] == w.queue.memory[id].path)
  {
    hide Weight;
    assert EntryOK(w.queue, id, w.stage[id]);
    NotLiveOver(w.queue, id);
    assert RecordOK(w.queue.memory[id], w.stage[id], id, w.created, w.failed);
  }

  /** No create is lost. Whatever is asked for while the queue is open is carried by an entry, at the path to which
      later fences have renamed it while it waited, and merged only into another create at the same path; and once that
      entry is done, the provider has been asked to create exactly that path, or the pool has refused the entry. */
  lemma CreateHappens(w: World, p: Path, trace: seq<Action>)
    requires Inv(w) && Recorded(w) && !w.queue.closed && p != []
    ensures Inv(Step(w, Enqueue(p)))
    ensures var w1 := Step(w, Enqueue(p)); var w' := Run(w1, trace);
            && p in w1.queue.entries && Stands(w1.queue, w1.queue.entries[p], p)
            && var id := CarrierAfter(w1, w1.queue.entries[p], trace);
               && Stands(w'.queue, id, PathAfter(w1, w1.queue.entries[p], trace))
               && (w'.queue.memory[id].done && id !in w'.failed ==>
                     id in w'.created && w'.created[id] == PathAfter(w1, w1.queue.entries[p], trace))
  {
    hide Recorded, WellFormed, ThreadsOK, Weight;
    var w1 := Step(w, Enqueue(p));
    StepRecords(w, Enqueue(p));
    EnqueueTakes(w.queue, |w.stage|, p);
    hide Step, Inv, Run;
    RunCarries(w1, w1.queue.entries[p], trace);
    var w', id := Run(w1, trace), CarrierAfter(w1, w1.queue.entries[p], trace);
    if w'.queue.memory[id].done {
      DoneIsOver(w', id);
    }
  }

  /** And it is done once the threads have nothing left to run, which they reach by any schedule. */
  lemma CreateEnds(w: World, p: Path, trace: seq<Action>)
    requires Inv(w) && Recorded(w) && !w.queue.closed && p != []
    requires Inv(Step(w, Enqueue(p))) && forall a :: Internal(a) ==> !Enabled(Run(Step(w, Enqueue(p)), trace), a)
    ensures var w1 := Step(w, Enqueue(p)); var w' := Run(w1, trace);
            && p in w1.queue.entries && Stands(w1.queue, w1.queue.entries[p], p)
            && var id := CarrierAfter(w1, w1.queue.entries[p], trace);
               id in w'.failed
               || (id in w'.created && w'.created[id] == PathAfter(w1, w1.queue.entries[p], trace))
  {
    hide Recorded, Inv, Step, Enabled;
    CreateHappens(w, p, trace);
    var w1 := Step(w, Enqueue(p));
    RunKeeps(w1, trace);
    ThreadsDrain(Run(w1, trace), []);
  }

  lemma InitRecorded()
    ensures Inv(INIT) && Recorded(INIT)
  {
  }

  // ---------------------------------------------------------------- what a rename may rely on after its wait

  ghost predicate FencedOff(q: Queue, barrier: set<nat>, src: Path, isDir: bool) {
    forall k :: k in q.entries && Matches(k, src, isDir) ==> q.entries[k] in barrier
  }

  /** A caller that keeps away from the renamed subtree, as the holder of writebackMu forces all callers to. */
  predicate Quiet(a: Action, src: Path, isDir: bool) {
    !a.RebaseAndFence? && (a.Enqueue? ==> !Matches(a.path, src, isDir))
  }

  lemma StepFencedOff(w: World, a: Action, barrier: set<nat>, src: Path, isDir: bool)
    requires Inv(w) && FencedOff(w.queue, barrier, src, isDir) && Quiet(a, src, isDir)
    ensures FencedOff(Step(w, a).queue, barrier, src, isDir)
  {
    hide EntriesOK, ThreadsOK, Fenced, Matches;
  }

  lemma {:induction false} RunFencedOff(w: World, trace: seq<Action>, barrier: set<nat>, src: Path, isDir: bool)
    requires Inv(w) && FencedOff(w.queue, barrier, src, isDir)
    requires forall i :: 0 <= i < |trace| ==> Quiet(trace[i], src, isDir)
    ensures FencedOff(Run(w, trace).queue, barrier, src, isDir)
    decreases |trace|
  {
    if trace == [] {
    } else {
      StepFencedOff(w, trace[0], barrier, src, isDir);
      StepKeeps(w, trace[0]);
      RunFencedOff(Step(w, trace[0]), trace[1..], barrier, src, isDir);
    }
  }

  ghost predicate BarrierDone(q: Queue, barrier: set<nat>) {
    forall id :: id in barrier && id in q.memory ==> q.memory[id].done
  }

  /** No create is queued or in flight at or below `src`. */
  ghost predicate NoCreatesUnder(w: World, src: Path, isDir: bool) {
    && (forall k :: k in w.queue.entries ==> !Matches(k, src, isDir))
    && forall id :: 0 <= id < |w.stage| && w.stage[id].Creating? ==> !Matches(w.stage[id].target, src, isDir)
  }

  lemma BarrierClears(w: World, barrier: set<nat>, src: Path, isDir: bool)
    requires Inv(w) && FencedOff(w.queue, barrier, src, isDir) && BarrierDone(w.queue, barrier)
    ensures NoCreatesUnder(w, src, isDir)
  {
    hide Matches, Weight;
    assert forall k :: k in w.queue.entries ==> Keyed(w.queue, k);
    assert forall id :: 0 <= id < |w.stage| ==> EntryOK(w.queue, id, w.stage[id]);
  }

  lemma FenceCuts(q: Queue, src: Path, dst: Path, isDir: bool)
    requires WellFormed(q) && Apart(src, dst, isDir) && src != [] && dst != []
    ensures FencedOff(Fenced(q, src, dst, isDir), Fence(q, src, dst, isDir), src, isDir)
  {
    hide Fenced, Fence, Matches;
    forall k | k in Fenced(q, src, dst, isDir).entries && Matches(k, src, isDir)
      ensures Fenced(q, src, dst, isDir).entries[k] in Fence(q, src, dst, isDir)
    {
      FenceComplete(q, src, dst, isDir, k);
    }
  }

  /** After a fence and any run of the threads, once the barrier is done no create is queued or in flight at or
      below the renamed source. */
  lemma FenceHolds(w: World, src: Path, dst: Path, isDir: bool, trace: seq<Action>)
    requires Inv(w) && src != [] && dst != [] && Apart(src, dst, isDir)
    requires forall i :: 0 <= i < |trace| ==> Quiet(trace[i], src, isDir)
    ensures Inv(Step(w, RebaseAndFence(src, dst, isDir)))
    ensures var w' := Run(Step(w, RebaseAndFence(src, dst, isDir)), trace);
            BarrierDone(w'.queue, Fence(w.queue, src, dst, isDir)) ==> NoCreatesUnder(w', src, isDir)
  {
    StepKeeps(w, RebaseAndFence(src, dst, isDir));
    hide Fenced, Fence, Matches, FencedOff, BarrierDone, NoCreatesUnder, WellFormed, ThreadsOK;
    FenceCuts(w.queue, src, dst, isDir);
    var w1, barrier := Step(w, RebaseAndFence(src, dst, isDir)), Fence(w.queue, src, dst, isDir);
    RunFencedOff(w1, trace, barrier, src, isDir);
    RunKeeps(w1, trace);
    var w' := Run(w1, trace);
    if BarrierDone(w'.queue, barrier) {
      BarrierClears(w', barrier, src, isDir);
    }
  }
}
