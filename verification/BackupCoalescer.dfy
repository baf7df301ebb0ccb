/** The automatic configuration backup of dispatch_config_backup.go: many changes, one snapshot at a time. */
module BackupCoalescer {

  // ---------------------------------------------------------------- the flags, one critical section at a time

  datatype Flags = Flags(pending: bool, uploading: bool, rerun: bool)

  /** A change, and whether a worker has to be started for it. */
  function Queued(f: Flags): (Flags, bool) {
    if f.pending then (f.(rerun := f.rerun || f.uploading), false) else (f.(pending := true), true)
  }

  function Uploading(f: Flags): Flags {
    f.(uploading := true)
  }

  /** The end of a worker, and whether it has to queue a follow-up. */
  function Ended(f: Flags): (Flags, bool) {
    (Flags(false, false, false), f.rerun)
  }

  class AutomaticConfigBackup {
    var pending: bool
    var uploading: bool
    var rerun: bool

    ghost function State(): Flags
      reads this
    {
      Flags(pending, uploading, rerun)
    }

    constructor ()
      ensures State() == Flags(false, false, false)
    {
      pending, uploading, rerun := false, false, false;
    }

    /** Returns whether the caller has to start a worker. */
    method Queue() returns (starts: bool)
      modifies this
      ensures (State(), starts) == Queued(old(State()))
    {
      if pending {
        if uploading {
          rerun := true;
        }
        return false;
      }
      pending := true;
      starts := true;
    }

    method BeginUpload()
      modifies this`uploading
      ensures State() == Uploading(old(State()))
    {
      uploading := true;
    }

    /** The worker's last step; returns whether it has to queue a follow-up. */
    method End() returns (again: bool)
      modifies this
      ensures (State(), again) == Ended(old(State()))
    {
      uploading := false;
      pending := false;
      again := rerun;
      rerun := false;
    }
  }

  // ---------------------------------------------------------------- callers and workers

  /** A worker sleeps, loads the settings, announces its upload, takes the snapshot, and ends. */
  datatype Stage = Sleeping | Loaded | Announced | Snapshotting | Snapshotted | Quitting

  datatype Event = Called | SnapshotStarts | GivesUp

  /** `followUps` counts the workers that have cleared the flags and are about to queue again. */
  datatype World = World(flags: Flags, workers: seq<Stage>, followUps: nat, log: seq<Event>)

  const INIT := World(Flags(false, false, false), [], 0, [])

  datatype Action =
    | Call
    | FollowUp
    | Load(k: nat, enabled: bool)     // the delay is over; a failed load and disabled backups look alike
    | Announce(k: nat)
    | StartSnapshot(k: nat)
    | EndSnapshot(k: nat)             // whether or not the upload failed
    | End(k: nat)

  predicate At(w: World, k: nat, s: Stage) {
    k < |w.workers| && w.workers[k] == s
  }

  predicate Enabled(w: World, a: Action) {
    match a
    case Call => true
    case FollowUp => w.followUps > 0
    case Load(k, _) => At(w, k, Sleeping)
    case Announce(k) => At(w, k, Loaded)
    case StartSnapshot(k) => At(w, k, Announced)
    case EndSnapshot(k) => At(w, k, Snapshotting)
    case End(k) => At(w, k, Snapshotted) || At(w, k, Quitting)
  }

  function Queues(w: World): World {
    var (flags, starts) := Queued(w.flags);
    w.(flags := flags, workers := if starts then w.workers + [Sleeping] else w.workers, log := w.log + [Called])
  }

  function Step(w: World, a: Action): World {
    if !Enabled(w, a) then w
    else match a
      case Call => Queues(w)
      case FollowUp => Queues(w.(followUps := w.followUps - 1))
      case Load(k, enabled) => w.(workers := w.workers[k := if enabled then Loaded else Quitting])
      case Announce(k) => w.(workers := w.workers[k := Announced], flags := Uploading(w.flags))
      case StartSnapshot(k) => w.(workers := w.workers[k := Snapshotting], log := w.log + [SnapshotStarts])
      case EndSnapshot(k) => w.(workers := w.workers[k := Snapshotted])
      case End(k) =>
        var (flags, again) := Ended(w.flags);
        World(flags, w.workers[..k] + w.workers[k + 1..], w.followUps + (if again then 1 else 0),
              if w.workers[k].Quitting? then w.log + [GivesUp] else w.log)
  }

  function Run(w: World, trace: seq<Action>): World
    decreases |trace|
  {
    if trace == [] then w else Run(Step(w, trace[0]), trace[1..])
  }

  // ---------------------------------------------------------------- no change misses its backup

  /** A call is answered by a snapshot that starts after it, or by a worker that gives up after it. */
  ghost predicate Answered(log: seq<Event>, i: nat) {
    exists j :: i < j < |log| && !log[j].Called?
  }

  predicate Before(s: Stage) {
    s.Sleeping? || s.Loaded? || s.Announced? || s.Quitting?
  }

  predicate Uploads(s: Stage) {
    s.Announced? || s.Snapshotting? || s.Snapshotted?
  }

  /** Someone is still going to start a snapshot, or to give up. */
  predicate Owed(w: World) {
    w.followUps > 0 || w.flags.rerun || (w.workers != [] && Before(w.workers[0]))
  }

  ghost predicate Inv(w: World) {
    && |w.workers| == (if w.flags.pending then 1 else 0)
    && (w.flags.uploading <==> w.workers != [] && Uploads(w.workers[0]))
    && (w.flags.rerun ==> w.flags.uploading)
    && forall i :: 0 <= i < |w.log| && w.log[i].Called? ==> Answered(w.log, i) || Owed(w)
  }

  lemma AnsweredGrows(log: seq<Event>, more: seq<Event>, i: nat)
    requires Answered(log, i) && log <= more
    ensures Answered(more, i)
  {
    var j :| i < j < |log| && !log[j].Called?;
    assert !more[j].Called?;
  }

  lemma StepKeeps(w: World, a: Action)
    requires Inv(w)
    ensures Inv(Step(w, a))
  {
    var w' := Step(w, a);
    assert w.log <= w'.log;
    forall i | 0 <= i < |w'.log| && w'.log[i].Called?
      ensures Answered(w'.log, i) || Owed(w')
    {
      if i < |w.log| && Answered(w.log, i) {
        AnsweredGrows(w.log, w'.log, i);
      } else if |w'.log| > |w.log| && !w'.log[|w.log|].Called? {
        assert i < |w.log|;
      }
    }
  }

  lemma {:induction false} RunKeeps(w: World, trace: seq<Action>)
    requires Inv(w)
    ensures Inv(Run(w, trace))
    decreases |trace|
  {
    if trace == [] {
    } else {
      StepKeeps(w, trace[0]);
      RunKeeps(Step(w, trace[0]), trace[1..]);
    }
  }

  predicate Enabling(a: Action) {
    a.Load? ==> a.enabled
  }

  lemma {:induction false} NeverGivesUp(w: World, trace: seq<Action>)
    requires forall i :: 0 <= i < |trace| ==> Enabling(trace[i])
    requires Quitting !in w.workers && GivesUp !in w.log
    ensures GivesUp !in Run(w, trace).log
    decreases |trace|
  {
    if trace == [] {
    } else {
      NeverGivesUp(Step(w, trace[0]), trace[1..]);
    }
  }

  predicate Settled(w: World) {
    w.workers == [] && w.followUps == 0
  }

  /** In every interleaving at most one worker is alive, so no two snapshots run at once, and once everything has
      settled each call is followed by a snapshot that starts after it or by a worker that gives up after it. With
      backups enabled throughout, it is a snapshot. */
  lemma NoChangeMissesItsBackup(trace: seq<Action>, i: nat)
    ensures |Run(INIT, trace).workers| <= 1
    ensures var w := Run(INIT, trace);
            Settled(w) && i < |w.log| && w.log[i].Called? ==>
              && Answered(w.log, i)
              && ((forall k :: 0 <= k < |trace| ==> Enabling(trace[k])) ==>
                    exists j :: i < j < |w.log| && w.log[j] == SnapshotStarts)
  {
    RunKeeps(INIT, trace);
    var w := Run(INIT, trace);
    if Settled(w) && i < |w.log| && w.log[i].Called? {
      assert Answered(w.log, i);
      var j :| i < j < |w.log| && !w.log[j].Called?;
      if forall k :: 0 <= k < |trace| ==> Enabling(trace[k]) {
        NeverGivesUp(INIT, trace);
        assert w.log[j] == SnapshotStarts;
      }
    }
  }

  /** Without that a change can be lost: it arrives after a worker has found backups disabled and before the worker
      ends, and no snapshot ever starts for it, although no later load fails. */
  lemma ChangeLost()
    ensures var w := Run(INIT, [Call, Load(0, false), Call, End(0)]);
            Settled(w) && w.log == [Called, Called, GivesUp]
  {
    var w1 := Step(INIT, Call);
    var w2 := Step(w1, Load(0, false));
    var w3 := Step(w2, Call);
    var w4 := Step(w3, End(0));
    assert w1.workers == [Sleeping] && w2.workers == [Quitting] && w3.workers == [Quitting];
    assert w4.workers == [] && w4.log == [Called, Called, GivesUp];
    var trace := [Call, Load(0, false), Call, End(0)];
    assert trace[1..] == [Load(0, false), Call, End(0)] && trace[1..][1..] == [Call, End(0)];
    assert [Call, End(0)][1..] == [End(0)] && [End(0)][1..] == [];
    assert Run(w3, [End(0)]) == Run(w4, []) == w4;
    assert Run(w2, [Call, End(0)]) == w4;
    assert Run(w1, [Load(0, false), Call, End(0)]) == w4;
  }

  // ---------------------------------------------------------------- the workers come to an end

  function Remaining(s: Stage): nat {
    match s
    case Sleeping => 6
    case Loaded => 5
    case Announced => 4
    case Snapshotting => 3
    case Snapshotted => 2
    case Quitting => 2
  }

  /** What is left to do when nobody calls any more. */
  function Work(w: World): nat {
    7 * w.followUps + (if w.flags.rerun then 6 else 0) + (if w.workers == [] then 0 else Remaining(w.workers[0]))
  }

  lemma StepWorks(w: World, a: Action)
    requires Inv(w) && Enabled(w, a) && !a.Call?
    ensures Work(Step(w, a)) < Work(w)
  {
  }

  predicate Runs(w: World, trace: seq<Action>)
    decreases |trace|
  {
    trace == [] || (!trace[0].Call? && Enabled(w, trace[0]) && Runs(Step(w, trace[0]), trace[1..]))
  }

  lemma Progress(w: World) returns (a: Action)
    requires Inv(w) && !Settled(w)
    ensures !a.Call? && Enabled(w, a)
  {
    if w.followUps > 0 {
      a := FollowUp;
    } else {
      match w.workers[0]
      case Sleeping => a := Load(0, true);
      case Loaded => a := Announce(0);
      case Announced => a := StartSnapshot(0);
      case Snapshotting => a := EndSnapshot(0);
      case _ => a := End(0);
    }
  }

  /** Once the calls stop, every schedule of the workers is finite, and one that has nothing left to run has settled. */
  lemma {:induction false} WorkersDrain(w: World, trace: seq<Action>)
    requires Inv(w) && Runs(w, trace)
    ensures |trace| <= Work(w)
    ensures (forall a: Action :: !a.Call? ==> !Enabled(Run(w, trace), a)) ==> Settled(Run(w, trace))
    decreases |trace|
  {
    if trace == [] {
      if !Settled(w) {
        var a := Progress(w);
      }
    } else {
      hide Step, Work;
      StepKeeps(w, trace[0]);
      StepWorks(w, trace[0]);
      WorkersDrain(Step(w, trace[0]), trace[1..]);
    }
  }
}
