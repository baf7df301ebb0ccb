/** One physical Windows rename reaches the mount twice, through the file watcher and through the Cloud Files
    callback. This is the protocol that admits it once: the watcher, the callbacks, and one FIFO worker. */
module RenameProtocol {
  import opened Counting
  import opened WatcherState
  import opened Wrappers

  datatype Job = First(pair: Pair) | Fallback(pair: Pair) | Other(id: nat)

  // ---------------------------------------------------------------- the mutation queue

  datatype Queue = Queue(jobs: seq<Job>, started: bool, stopping: bool)

  const EMPTY := Queue([], false, false)

  /** A submission, and whether it is accepted. */
  function Submitted(q: Queue, job: Job): (Queue, bool) {
    if q.stopping then (q, false) else (q.(jobs := q.jobs + [job]), true)
  }

  /** The worker goes on once there is a job, or once it is to stop. */
  predicate Awake(q: Queue) {
    q.jobs != [] || q.stopping
  }

  /** What an awake worker takes: the oldest job, or None when it is to exit. */
  function Taken(q: Queue): (Queue, Option<Job>) {
    if q.jobs == [] then (q, None) else (q.(jobs := q.jobs[1..]), Some(q.jobs[0]))
  }

  function Stopped(q: Queue): Queue {
    q.(stopping := q.stopping || q.started)
  }

  class MutationQueue {
    var jobs: seq<Job>
    var started: bool
    var stopping: bool

    ghost function State(): Queue
      reads this
    {
      Queue(jobs, started, stopping)
    }

    constructor ()
      ensures State() == EMPTY
    {
      jobs, started, stopping := [], false, false;
    }

    /** Returns whether the worker is to be started. */
    method Start() returns (first: bool)
      modifies this`started
      ensures first == !old(started) && State() == old(State()).(started := true)
    {
      first := !started;
      started := true;
    }

    method Submit(job: Job) returns (ok: bool)
      modifies this`jobs
      ensures (State(), ok) == Submitted(old(State()), job)
    {
      if stopping {
        return false;
      }
      jobs := jobs + [job];
      ok := true;
    }

    /** The worker, awake: it takes the oldest job, and it exits only when it is to stop and none is left. */
    method Take() returns (job: Option<Job>)
      requires Awake(State())
      modifies this`jobs
      ensures (State(), job) == Taken(old(State()))
    {
      if |jobs| == 0 {
        return None;
      }
      job := Some(jobs[0]);
      jobs := jobs[1..];
    }

    /** Returns whether the caller must wait for the worker to finish. */
    method Stop() returns (drains: bool)
      modifies this`stopping
      ensures drains == started && State() == Stopped(old(State()))
    {
      if !started {
        return false;
      }
      stopping := true;
      drains := true;
    }
  }

  // ---------------------------------------------------------------- the protocol

  datatype Worker = Unborn | Ready | Checking(pair: Pair) | Running(job: Job) | Exited

  /** The history: a Cloud Files completion, the start and end of an attempt, and a submission refused by a stop. */
  datatype Event = Arrived(pair: Pair) | Started(pair: Pair) | Ended(pair: Pair, ok: bool) | Refused(pair: Pair)

  datatype World = World(
    queue: Queue,
    worker: Worker,
    stopped: bool,          // stopAndDrain has returned after waiting
    marked: set<Pair>,      // completedRenames, unexpired
    late: seq<Pair>,        // completions that saw the marker and have yet to submit their fallback
    accepted: seq<Job>,
    executed: seq<Job>,
    log: seq<Event>)

  const INIT := World(EMPTY, Unborn, false, {}, [], [], [], [])

  datatype Action =
    | StartWorker
    | RequestStop
    | StopReturns
    | Pairing(pair: Pair)      // the watcher folds Rename(old) and Create(new)
    | Completion(pair: Pair)   // the Cloud Files callback
    | SubmitLate(k: nat)
    | SubmitOther(id: nat)
    | Take
    | Check
    | EndJob(ok: bool)

  /** A running fallback job keeps renameMu. */
  predicate RenameMuFree(w: World) {
    !(w.worker.Running? && w.worker.job.Fallback?)
  }

  predicate Enabled(w: World, a: Action) {
    match a
    case StartWorker => !w.queue.started
    case RequestStop => w.queue.started
    case StopReturns => w.queue.stopping && w.worker.Exited?
    case Pairing(_) => RenameMuFree(w)
    case Completion(_) => RenameMuFree(w)
    case SubmitLate(k) => k < |w.late|
    case SubmitOther(_) => true
    case Take => w.worker.Ready? && Awake(w.queue)
    case Check => w.worker.Checking?
    case EndJob(_) => w.worker.Running?
  }

  function Accept(w: World, job: Job): World {
    var (queue, ok) := Submitted(w.queue, job);
    w.(queue := queue, accepted := if ok then w.accepted + [job] else w.accepted)
  }

  /** Under renameMu: mark the pair and submit the first apply, or clear the mark when the queue refuses. */
  function Admit(w: World, pair: Pair): World {
    var w' := Accept(w, First(pair));
    if w.queue.stopping then w'.(log := w.log + [Refused(pair)]) else w'.(marked := w.marked + {pair})
  }

  function Begin(w: World, job: Job): World {
    if job.Fallback? then w.(worker := Checking(job.pair))
    else w.(worker := Running(job), log := if job.First? then w.log + [Started(job.pair)] else w.log)
  }

  function Step(w: World, a: Action): World {
    if !Enabled(w, a) then w
    else match a
      case StartWorker => w.(queue := w.queue.(started := true), worker := Ready)
      case RequestStop => w.(queue := Stopped(w.queue))
      case StopReturns => w.(stopped := true)
      case Pairing(p) => if p in w.marked then w else Admit(w, p)
      case Completion(p) =>
        var heard := w.(log := w.log + [Arrived(p)]);
        if p in w.marked then heard.(late := w.late + [p]) else Admit(heard, p)
      case SubmitLate(k) =>
        var p, rest := w.late[k], w.(late := w.late[..k] + w.late[k + 1..]);
        Accept(rest, Fallback(p)).(log := if w.queue.stopping then w.log + [Refused(p)] else w.log)
      case SubmitOther(id) => Accept(w, Other(id))
      case Take =>
        var (queue, job) := Taken(w.queue);
        if job.None? then w.(worker := Exited) else Begin(w.(queue := queue), job.value)
      case Check =>
        var p := w.worker.pair;
        if p in w.marked then w.(worker := Ready, executed := w.executed + [Fallback(p)])
        else w.(worker := Running(Fallback(p)), marked := w.marked + {p}, log := w.log + [Started(p)])
      case EndJob(ok) =>
        var job := w.worker.job;
        var idle := w.(worker := Ready, executed := w.executed + [job]);
        if job.Other? then idle
        else idle.(log := w.log + [Ended(job.pair, ok)], marked := if ok then w.marked else w.marked - {job.pair})
  }

  // ---------------------------------------------------------------- at most one success

  function IsFirst(p: Pair): Job -> nat {
    (j: Job) => if j == First(p) then 1 else 0
  }

  function IsSuccess(p: Pair): Event -> nat {
    (e: Event) => if e == Ended(p, true) then 1 else 0
  }

  /** What entitles a pair to its marker: a first apply queued, an attempt running, or a success. */
  function Claims(w: World, p: Pair): nat {
    Weight(w.queue.jobs, IsFirst(p)) + Attempting(w.worker, p) + Weight(w.log, IsSuccess(p))
  }

  function Attempting(worker: Worker, p: Pair): nat {
    if worker.Running? && !worker.job.Other? && worker.job.pair == p then 1 else 0
  }

  ghost predicate MarkedIffClaimed(w: World) {
    forall p :: Claims(w, p) == if p in w.marked then 1 else 0
  }

  lemma WeightDrop(jobs: seq<Job>, f: Job -> nat)
    requires jobs != []
    ensures Weight(jobs, f) == f(jobs[0]) + Weight(jobs[1..], f)
  {
  }

  /** The steps of the worker. */
  lemma ClaimsWork(w: World, a: Action, p: Pair)
    requires MarkedIffClaimed(w) && Enabled(w, a) && (a.Take? || a.Check? || a.EndJob?)
    ensures Claims(Step(w, a), p) == if p in Step(w, a).marked then 1 else 0
  {
    hide Weight, MarkedIffClaimed;
    MarkedAt(w, p);
    if a.Take? {
      if w.queue.jobs != [] {
        WeightDrop(w.queue.jobs, IsFirst(p));
        if w.queue.jobs[0].First? {
          WeightSnoc(w.log, Started(w.queue.jobs[0].pair), IsSuccess(p));
        }
      }
    } else if a.Check? {
      MarkedAt(w, w.worker.pair);
      WeightSnoc(w.log, Started(w.worker.pair), IsSuccess(p));
    } else if !w.worker.job.Other? {
      WeightSnoc(w.log, Ended(w.worker.job.pair, a.ok), IsSuccess(p));
    }
  }

  /** The steps that submit a job. */
  lemma ClaimsSubmit(w: World, a: Action, p: Pair)
    requires MarkedIffClaimed(w) && Enabled(w, a)
    requires a.Pairing? || a.Completion? || a.SubmitLate? || a.SubmitOther?
    ensures Claims(Step(w, a), p) == if p in Step(w, a).marked then 1 else 0
  {
    hide Weight, MarkedIffClaimed;
    MarkedAt(w, p);
    if a.Completion? {
      WeightSnoc(w.log, Arrived(a.pair), IsSuccess(p));
      WeightSnoc(w.log + [Arrived(a.pair)], Refused(a.pair), IsSuccess(p));
      WeightSnoc(w.queue.jobs, First(a.pair), IsFirst(p));
    } else if a.Pairing? {
      WeightSnoc(w.log, Refused(a.pair), IsSuccess(p));
      WeightSnoc(w.queue.jobs, First(a.pair), IsFirst(p));
    } else if a.SubmitLate? {
      WeightSnoc(w.log, Refused(w.late[a.k]), IsSuccess(p));
      WeightSnoc(w.queue.jobs, Fallback(w.late[a.k]), IsFirst(p));
    } else {
      WeightSnoc(w.queue.jobs, Other(a.id), IsFirst(p));
    }
  }

  lemma ClaimsStep(w: World, a: Action, p: Pair)
    requires MarkedIffClaimed(w) && (w.queue.started <==> !w.worker.Unborn?)
    ensures Claims(Step(w, a), p) == if p in Step(w, a).marked then 1 else 0
  {
    hide Weight, MarkedIffClaimed;
    MarkedAt(w, p);
    if Enabled(w, a) {
      if a.Take? || a.Check? || a.EndJob? {
        ClaimsWork(w, a, p);
      } else if a.Pairing? || a.Completion? || a.SubmitLate? || a.SubmitOther? {
        ClaimsSubmit(w, a, p);
      }
    }
  }

  lemma MarkedAt(w: World, p: Pair)
    requires MarkedIffClaimed(w)
    ensures Claims(w, p) == if p in w.marked then 1 else 0
  {
  }

  // ---------------------------------------------------------------- jobs in order

  ghost predicate Fifo(w: World) {
    w.accepted == w.executed + InHand(w.worker) + w.queue.jobs
  }

  function InHand(worker: Worker): seq<Job> {
    match worker
    case Checking(p) => [Fallback(p)]
    case Running(job) => [job]
    case _ => []
  }

  ghost predicate Inv(w: World) {
    && MarkedIffClaimed(w)
    && Fifo(w)
    && (w.queue.started <==> !w.worker.Unborn?)
    && (w.worker.Exited? ==> w.queue.jobs == [] && w.queue.stopping)
    && (w.stopped ==> w.worker.Exited?)
  }

  lemma FifoStep(w: World, a: Action)
    requires Inv(w)
    ensures Fifo(Step(w, a))
  {
    hide Weight, MarkedIffClaimed;
    var w' := Step(w, a);
    if Enabled(w, a) {
      if a.Take? && w.queue.jobs == [] {
        assert InHand(w.worker) == InHand(w'.worker) == [];
      } else if a.Take? {
        assert w.queue.jobs == [w.queue.jobs[0]] + w.queue.jobs[1..];
        assert w.executed + [] + w.queue.jobs == w.executed + [w.queue.jobs[0]] + w.queue.jobs[1..];
      } else if a.Check? || a.EndJob? {
        assert InHand(w.worker) != [] && w.executed + InHand(w.worker) == w.executed + InHand(w.worker) + [];
      } else if w'.queue.jobs != w.queue.jobs {
        Regroup(w.executed, InHand(w.worker), w.queue.jobs, w'.queue.jobs[|w.queue.jobs|]);
      }
    }
  }

  lemma Regroup(a: seq<Job>, b: seq<Job>, c: seq<Job>, x: Job)
    ensures a + b + c + [x] == a + b + (c + [x])
  {
  }

  lemma StepKeeps(w: World, a: Action)
    requires Inv(w)
    ensures Inv(Step(w, a))
  {
    forall p
      ensures Claims(Step(w, a), p) == if p in Step(w, a).marked then 1 else 0
    {
      ClaimsStep(w, a, p);
    }
    FifoStep(w, a);
  }

  // ---------------------------------------------------------------- whole runs

  function Run(w: World, trace: seq<Action>): World
    decreases |trace|
  {
    if trace == [] then w else Run(Step(w, trace[0]), trace[1..])
  }

  lemma {:induction false} RunKeeps(w: World, trace: seq<Action>)
    requires Inv(w)
    ensures Inv(Run(w, trace))
    decreases |trace|
  {
    if trace == [] {
    } else {
      StepKeeps(w, trace[0]);
      RunKeeps(Step(w, trace[0]), trace[1..]);
    }
  }

  lemma InitInv()
    ensures Inv(INIT)
  {
    forall p
      ensures Claims(INIT, p) == 0
    {
      assert Weight(INIT.queue.jobs, IsFirst(p)) == 0 && Weight(INIT.log, IsSuccess(p)) == 0;
    }
  }

  /** For every interleaving and every pair, at most one queued apply of the rename succeeds. */
  lemma AdmittedAtMostOnce(trace: seq<Action>, p: Pair, i: nat, j: nat)
    requires i < |Run(INIT, trace).log| && j < |Run(INIT, trace).log|
    requires Run(INIT, trace).log[i] == Ended(p, true) && Run(INIT, trace).log[j] == Ended(p, true)
    ensures i == j
  {
    InitInv();
    RunKeeps(INIT, trace);
    var w := Run(INIT, trace);
    MarkedAt(w, p);
    if i < j {
      WeightAtLeastTwo(w.log, i, j, IsSuccess(p));
    } else if j < i {
      WeightAtLeastTwo(w.log, j, i, IsSuccess(p));
    }
  }

  /** The worker runs accepted jobs in order, and has run all of them by the time a stop returns. */
  lemma DrainedInOrder(trace: seq<Action>)
    ensures var w := Run(INIT, trace);
            && w.executed <= w.accepted
            && w.accepted == w.executed + InHand(w.worker) + w.queue.jobs
            && (w.stopped ==> w.executed == w.accepted)
  {
    InitInv();
    RunKeeps(INIT, trace);
    var w := Run(INIT, trace);
    assert w.executed + (InHand(w.worker) + w.queue.jobs) == w.executed + InHand(w.worker) + w.queue.jobs;
  }

  // ---------------------------------------------------------------- no completion is lost

  predicate Succeeded(log: seq<Event>, p: Pair) {
    Ended(p, true) in log
  }

  /** The event occurs after position `i`. */
  ghost predicate After(log: seq<Event>, i: nat, e: Event) {
    exists j :: i < j < |log| && log[j] == e
  }

  /** After position `i` an attempt for the pair fails, and later another one starts. */
  ghost predicate Retried(log: seq<Event>, i: nat, p: Pair) {
    exists k :: i < k < |log| && log[k] == Ended(p, false) && After(log, k, Started(p))
  }

  lemma AfterGrows(log: seq<Event>, log': seq<Event>, i: nat, e: Event)
    requires log <= log'
    ensures After(log, i, e) ==> After(log', i, e)
    ensures e in log ==> e in log'
  {
    if j :| i < j < |log| && log[j] == e {
      assert log'[j] == e;
    }
    if e in log {
      var k :| 0 <= k < |log| && log[k] == e;
      assert log'[k] == e;
    }
  }

  lemma RetriedGrows(log: seq<Event>, log': seq<Event>, i: nat, p: Pair)
    requires log <= log'
    ensures Retried(log, i, p) ==> Retried(log', i, p)
  {
    if k :| i < k < |log| && log[k] == Ended(p, false) && After(log, k, Started(p)) {
      AfterGrows(log, log', k, Started(p));
      assert log'[k] == Ended(p, false);
    }
  }

  /** A step keeps the history and adds to its end. */
  lemma LogGrows(w: World, a: Action)
    ensures w.log <= Step(w, a).log
  {
  }

  /** A job that will see to the pair is on its way. */
  predicate Obliged(w: World, p: Pair) {
    First(p) in w.queue.jobs || Fallback(p) in w.queue.jobs || p in w.late || w.worker == Checking(p)
  }

  /** The pair's first apply is queued or running, and a fallback will come to the worker after it. */
  ghost predicate Backed(w: World, p: Pair) {
    && p in w.marked && w.worker != Running(Fallback(p))
    && (p in w.late || (w.worker == Running(First(p)) && Fallback(p) in w.queue.jobs) || FirstThenFallback(w.queue.jobs, p))
  }

  ghost predicate FirstThenFallback(jobs: seq<Job>, p: Pair) {
    exists m, n :: 0 <= m < n < |jobs| && jobs[m] == First(p) && jobs[n] == Fallback(p)
  }

  /** A completion that arrived at `i` for an unmarked pair. */
  ghost predicate Heard(w: World, i: nat, p: Pair) {
    Succeeded(w.log, p) || After(w.log, i, Refused(p)) || After(w.log, i, Started(p)) || Obliged(w, p)
  }

  /** A completion that arrived at `i` for a marked pair. */
  ghost predicate Held(w: World, i: nat, p: Pair) {
    || Succeeded(w.log, p) || After(w.log, i, Refused(p)) || Retried(w.log, i, p)
    || (After(w.log, i, Ended(p, false)) && Obliged(w, p)) || Backed(w, p)
  }

  /** A fallback job finds the marker only if the pair has succeeded or a first apply of it is still queued. */
  lemma MarkerExplained(w: World, p: Pair)
    requires MarkedIffClaimed(w) && p in w.marked
    ensures First(p) in w.queue.jobs || Succeeded(w.log, p) || w.worker in {Running(First(p)), Running(Fallback(p))}
  {
    MarkedAt(w, p);
    if Weight(w.queue.jobs, IsFirst(p)) > 0 {
      var k := WeightPositive(w.queue.jobs, IsFirst(p));
    } else if Attempting(w.worker, p) == 0 {
      var k := WeightPositive(w.log, IsSuccess(p));
    }
  }

  /** A step keeps an obligation, or it makes good on it. */
  lemma ObligationStep(w: World, a: Action, p: Pair)
    requires Inv(w) && Obliged(w, p)
    ensures var w' := Step(w, a);
            Obliged(w', p) || Succeeded(w'.log, p) || w'.log == w.log + [Started(p)] || w'.log == w.log + [Refused(p)]
  {
    hide Weight, MarkedIffClaimed;
    var jobs := w.queue.jobs;
    if Enabled(w, a) {
      if a.Take? && jobs != [] {
        assert First(p) in jobs ==> jobs[0] == First(p) || First(p) in jobs[1..];
        assert Fallback(p) in jobs ==> jobs[0] == Fallback(p) || Fallback(p) in jobs[1..];
      } else if a.Check? && w.worker.pair in w.marked {
        MarkerExplained(w, w.worker.pair);
      } else if a.SubmitLate? {
        assert w.late == w.late[..a.k] + [w.late[a.k]] + w.late[a.k + 1..];
      }
    }
  }

  lemma HeardStep(w: World, a: Action, i: nat, p: Pair)
    requires Inv(w) && Heard(w, i, p) && i < |w.log|
    ensures Heard(Step(w, a), i, p)
  {
    hide Inv, Step, Obliged;
    var w' := Step(w, a);
    LogGrows(w, a);
    AfterGrows(w.log, w'.log, i, Refused(p));
    AfterGrows(w.log, w'.log, i, Started(p));
    AfterGrows(w.log, w'.log, i, Ended(p, true));
    if Obliged(w, p) {
      ObligationStep(w, a, p);
      NewLast(w.log, w'.log, i, Started(p));
      NewLast(w.log, w'.log, i, Refused(p));
    }
  }

  lemma NewLast(log: seq<Event>, log': seq<Event>, i: nat, e: Event)
    requires i < |log|
    ensures log' == log + [e] ==> After(log', i, e)
  {
    if log' == log + [e] {
      assert log'[|log|] == e;
    }
  }

  /** Once the first apply is over, the fallback is still on its way. */
  lemma BackedStep(w: World, a: Action, p: Pair)
    requires Inv(w) && Backed(w, p) && !Succeeded(w.log, p)
    ensures var w' := Step(w, a);
            || Backed(w', p) || Succeeded(w'.log, p) || w'.log == w.log + [Refused(p)]
            || (w'.log == w.log + [Ended(p, false)] && Obliged(w', p))
  {
    hide Weight, MarkedIffClaimed;
    MarkerExplained(w, p);
    var w', jobs := Step(w, a), w.queue.jobs;
    if Enabled(w, a) {
      if a.Take? && jobs != [] {
        BackedTake(w, p);
      } else if a.SubmitLate? {
        assert w.late == w.late[..a.k] + [w.late[a.k]] + w.late[a.k + 1..];
        BackedLate(w, a.k, p);
      } else if a.EndJob? {
        assert FirstThenFallback(jobs, p) ==> Fallback(p) in jobs;
      } else if w'.queue.jobs != jobs {
        StillBehind(jobs, w'.queue.jobs[|jobs|], p);
      }
    }
  }

  lemma StillBehind(jobs: seq<Job>, job: Job, p: Pair)
    ensures FirstThenFallback(jobs, p) ==> FirstThenFallback(jobs + [job], p)
  {
    if m, n :| 0 <= m < n < |jobs| && jobs[m] == First(p) && jobs[n] == Fallback(p) {
      assert (jobs + [job])[m] == First(p) && (jobs + [job])[n] == Fallback(p);
    }
  }

  lemma BackedTake(w: World, p: Pair)
    requires Backed(w, p) && Enabled(w, Take) && w.queue.jobs != []
    ensures Backed(Step(w, Take), p)
  {
    var jobs := w.queue.jobs;
    if FirstThenFallback(jobs, p) {
      var m, n :| 0 <= m < n < |jobs| && jobs[m] == First(p) && jobs[n] == Fallback(p);
      assert jobs[1..][n - 1] == Fallback(p);
      if m > 0 {
        assert jobs[1..][m - 1] == First(p);
      }
    }
  }

  lemma BackedLate(w: World, k: nat, p: Pair)
    requires Backed(w, p) && Enabled(w, SubmitLate(k))
    requires First(p) in w.queue.jobs || w.worker == Running(First(p))
    ensures var w' := Step(w, SubmitLate(k)); Backed(w', p) || w'.log == w.log + [Refused(p)]
  {
    var w', jobs, job := Step(w, SubmitLate(k)), w.queue.jobs, Fallback(w.late[k]);
    assert w.late == w.late[..k] + [w.late[k]] + w.late[k + 1..];
    StillBehind(jobs, job, p);
    if w.late[k] == p && !w.queue.stopping {
      assert w'.queue.jobs[|jobs|] == Fallback(p);
      if First(p) in jobs {
        var m :| 0 <= m < |jobs| && jobs[m] == First(p);
        assert w'.queue.jobs[m] == First(p);
      }
    }
  }

  lemma HeldStep(w: World, a: Action, i: nat, p: Pair)
    requires Inv(w) && Held(w, i, p) && i < |w.log|
    ensures Held(Step(w, a), i, p)
  {
    hide Inv, Step, Obliged, Backed, Retried;
    var w' := Step(w, a);
    LogGrows(w, a);
    AfterGrows(w.log, w'.log, i, Refused(p));
    AfterGrows(w.log, w'.log, i, Ended(p, false));
    AfterGrows(w.log, w'.log, i, Ended(p, true));
    RetriedGrows(w.log, w'.log, i, p);
    NewLast(w.log, w'.log, i, Refused(p));
    NewLast(w.log, w'.log, i, Ended(p, false));
    if After(w.log, i, Ended(p, false)) && Obliged(w, p) {
      ObligationStep(w, a, p);
      RetriedNow(w.log, w'.log, i, p);
    } else if Backed(w, p) && !Succeeded(w.log, p) {
      BackedStep(w, a, p);
    }
  }

  lemma RetriedNow(log: seq<Event>, log': seq<Event>, i: nat, p: Pair)
    requires After(log, i, Ended(p, false))
    ensures log' == log + [Started(p)] ==> Retried(log', i, p)
  {
    if log' == log + [Started(p)] {
      var k :| i < k < |log| && log[k] == Ended(p, false);
      NewLast(log, log', k, Started(p));
      assert log'[k] == Ended(p, false);
    }
  }

  lemma {:induction false} RunHeard(w: World, trace: seq<Action>, i: nat, p: Pair)
    requires Inv(w) && i < |w.log|
    ensures Heard(w, i, p) ==> Heard(Run(w, trace), i, p)
    ensures Held(w, i, p) ==> Held(Run(w, trace), i, p)
    decreases |trace|
  {
    hide Inv, Step, Heard, Held;
    if trace == [] {
    } else {
      StepKeeps(w, trace[0]);
      LogGrows(w, trace[0]);
      if Heard(w, i, p) {
        HeardStep(w, trace[0], i, p);
      }
      if Held(w, i, p) {
        HeldStep(w, trace[0], i, p);
      }
      RunHeard(Step(w, trace[0]), trace[1..], i, p);
    }
  }

  predicate Settled(w: World) {
    w.queue.jobs == [] && w.late == [] && (w.worker.Ready? || w.worker.Exited?)
  }

  /** The state right after a completion. */
  lemma Arrival(w: World, p: Pair)
    requires Inv(w) && Enabled(w, Completion(p))
    ensures var w', i := Step(w, Completion(p)), |w.log|; i < |w'.log| && if p in w.marked then Held(w', i, p) else Heard(w', i, p)
  {
    var w', i := Step(w, Completion(p)), |w.log|;
    if p in w.marked {
      assert w'.late[|w.late|] == p;
    } else if w.queue.stopping {
      assert w'.log[i + 1] == Refused(p);
    } else {
      assert w'.queue.jobs[|w.queue.jobs|] == First(p);
    }
  }

  /** No completion is lost, whatever happens before and after it. Once the queue is drained its rename has
      succeeded, or a stop has refused its submission, or it has been seen to: a completion that found its pair
      unmarked by an attempt of its own, and one that found an earlier apply of the pair under way, which then fails,
      by an attempt after that failure. */
  lemma CompletionNeverLost(before: seq<Action>, p: Pair, after: seq<Action>)
    requires Enabled(Run(INIT, before), Completion(p))
    requires Settled(Run(Step(Run(INIT, before), Completion(p)), after))
    ensures var w := Run(INIT, before);
            var log, i := Run(Step(w, Completion(p)), after).log, |w.log|;
            || Succeeded(log, p) || After(log, i, Refused(p))
            || if p in w.marked then Retried(log, i, p) else After(log, i, Started(p))
  {
    var w := Run(INIT, before);
    InitInv();
    RunKeeps(INIT, before);
    StepKeeps(w, Completion(p));
    Arrival(w, p);
    var w' := Step(w, Completion(p));
    hide Inv, Step;
    RunHeard(w', after, |w.log|, p);
  }

  // ---------------------------------------------------------------- the queue drains, and a stop returns

  /** The steps that need neither the watcher nor a callback nor a new caller. */
  predicate Internal(w: World, a: Action) {
    a.SubmitLate? || a.Take? || a.Check? || a.EndJob? || (a.StopReturns? && !w.stopped)
  }

  /** What they still have to do. */
  function Work(w: World): nat {
    4 * |w.late| + 3 * |w.queue.jobs| + (if w.stopped then 0 else 1)
    + match w.worker
      case Exited => 0
      case Checking(_) => 3
      case Running(_) => 2
      case _ => 1
  }

  lemma InternalWorks(w: World, a: Action)
    requires Inv(w) && Internal(w, a) && Enabled(w, a)
    ensures Work(Step(w, a)) < Work(w)
  {
    hide Weight, MarkedIffClaimed, Fifo;
  }

  predicate Runs(w: World, trace: seq<Action>)
    decreases |trace|
  {
    trace == [] || (Internal(w, trace[0]) && Enabled(w, trace[0]) && Runs(Step(w, trace[0]), trace[1..]))
  }

  /** While something is left to do some such step can be taken. */
  lemma Progress(w: World) returns (a: Action)
    requires Inv(w) && w.queue.started && (!Settled(w) || (w.queue.stopping && !w.stopped))
    ensures Internal(w, a) && Enabled(w, a)
  {
    hide Weight, MarkedIffClaimed, Fifo;
    a := if w.late != [] then SubmitLate(0)
         else if w.worker.Checking? then Check
         else if w.worker.Running? then EndJob(true)
         else if w.worker.Ready? then Take
         else StopReturns;
  }

  /** No step takes a request to stop back. */
  lemma StaysStopping(w: World, a: Action)
    ensures w.queue.started ==> Step(w, a).queue.started
    ensures w.queue.stopping ==> Step(w, a).queue.stopping
  {
  }

  /** Every schedule of such steps is finite, and one that has nothing left to run has emptied the queue and, if a stop
      was asked for, has returned from it: then every accepted job has been run. */
  lemma {:induction false} QueueDrains(w: World, trace: seq<Action>)
    requires Inv(w) && w.queue.started && Runs(w, trace)
    ensures |trace| <= Work(w)
    ensures var w' := Run(w, trace);
            (forall a :: Internal(w', a) ==> !Enabled(w', a)) ==>
              && Settled(w') && w'.executed == w'.accepted
              && (w.queue.stopping ==> w'.stopped && w'.worker.Exited?)
    decreases |trace|
  {
    hide Step, Weight, MarkedIffClaimed, Work;
    if trace == [] {
      if !Settled(w) || (w.queue.stopping && !w.stopped) {
        var a := Progress(w);
      }
    } else {
      StepKeeps(w, trace[0]);
      StaysStopping(w, trace[0]);
      InternalWorks(w, trace[0]);
      QueueDrains(Step(w, trace[0]), trace[1..]);
    }
  }

  /** A stop that is asked for of a started queue takes effect: nothing is accepted any more, and by the time all is run
      that can be, it has returned. */
  lemma StopTakesEffect(before: seq<Action>, trace: seq<Action>)
    requires var w := Run(INIT, before); w.queue.started && Runs(Step(w, RequestStop), trace)
    requires var w' := Run(Step(Run(INIT, before), RequestStop), trace); forall a :: Internal(w', a) ==> !Enabled(w', a)
    ensures var w := Run(INIT, before); var w' := Run(Step(w, RequestStop), trace);
            w'.stopped && w'.executed == w'.accepted == w.accepted
  {
    var w := Run(INIT, before);
    InitInv();
    RunKeeps(INIT, before);
    StepKeeps(w, RequestStop);
    QueueDrains(Step(w, RequestStop), trace);
    NothingAccepted(Step(w, RequestStop), trace);
  }

  lemma {:induction false} NothingAccepted(w: World, trace: seq<Action>)
    requires w.queue.stopping
    ensures Run(w, trace).accepted == w.accepted
    decreases |trace|
  {
    if trace == [] {
    } else {
      StaysStopping(w, trace[0]);
      NothingAccepted(Step(w, trace[0]), trace[1..]);
    }
  }

  predicate FallbackRuns(w: World) {
    w.worker.Running? && w.worker.job.Fallback?
  }

  /** Until a stop is asked for, everything that is submitted is accepted, and once drained has been run: the first apply
      of a pair that is not marked, from the watcher or from a callback, a late fallback, and any other job. */
  lemma SubmittedRuns(w: World, a: Action, trace: seq<Action>)
    requires Inv(w) && w.queue.started && !w.queue.stopping && Runs(Step(w, a), trace)
    requires var w' := Run(Step(w, a), trace); forall b :: Internal(w', b) ==> !Enabled(w', b)
    ensures var ran := Run(Step(w, a), trace).executed;
            && (a.SubmitOther? ==> Other(a.id) in ran)
            && (a.SubmitLate? && a.k < |w.late| ==> Fallback(w.late[a.k]) in ran)
            && ((a.Pairing? || a.Completion?) && !FallbackRuns(w) && a.pair !in w.marked ==> First(a.pair) in ran)
            && (a.Completion? && !FallbackRuns(w) && a.pair in w.marked ==> Fallback(a.pair) in ran)
  {
    var w1 := Step(w, a);
    StepKeeps(w, a);
    QueueDrains(w1, trace);
    AcceptedGrows(w1, trace);
    if a.Completion? && !FallbackRuns(w) && a.pair in w.marked {
      assert w1.late[|w.late|] == a.pair;
      LateRuns(w1, trace, a.pair);
    } else if Enabled(w, a) && w1.accepted != w.accepted {
      assert w1.accepted[|w.accepted|] in w1.accepted;
    }
  }

  lemma {:induction false} AcceptedGrows(w: World, trace: seq<Action>)
    ensures w.accepted <= Run(w, trace).accepted
    decreases |trace|
  {
    if trace == [] {
    } else {
      AcceptedStep(w, trace[0]);
      AcceptedGrows(Step(w, trace[0]), trace[1..]);
    }
  }

  lemma AcceptedStep(w: World, a: Action)
    ensures w.accepted <= Step(w, a).accepted
  {
  }

  /** A completion that is late is submitted in the end, as no such step asks for a stop. */
  lemma {:induction false} LateRuns(w: World, trace: seq<Action>, p: Pair)
    requires Inv(w) && !w.queue.stopping && Runs(w, trace) && (p in w.late || Fallback(p) in w.accepted)
    ensures var w' := Run(w, trace); p in w'.late || Fallback(p) in w'.accepted
    decreases |trace|
  {
    if trace == [] {
    } else {
      StepKeeps(w, trace[0]);
      LateStep(w, trace[0], p);
      LateRuns(Step(w, trace[0]), trace[1..], p);
    }
  }

  lemma LateStep(w: World, a: Action, p: Pair)
    requires !w.queue.stopping && Internal(w, a) && (p in w.late || Fallback(p) in w.accepted)
    ensures var w' := Step(w, a); !w'.queue.stopping && (p in w'.late || Fallback(p) in w'.accepted)
  {
    AcceptedStep(w, a);
    if a.SubmitLate? && Enabled(w, a) {
      assert w.late == w.late[..a.k] + [w.late[a.k]] + w.late[a.k + 1..];
      assert Step(w, a).accepted[|w.accepted|] == Fallback(w.late[a.k]);
    }
  }
}
