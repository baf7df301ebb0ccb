/** The lease registry of config_db_shared.go: one shared handle, closed only when no lease is out. */
module ConfigDb {
  import opened Wrappers
  import opened Counting

  // ---------------------------------------------------------------- the registry, one critical section at a time

  type Handle = nat

  datatype Registry = Registry(db: Option<Handle>, path: string, leases: int, switching: bool)

  /** How a critical section ends: asleep on the condition, outside the lock with work to do, or with an answer. */
  datatype Outcome =
    | AwaitSwitch
    | AwaitLeases
    | CloseStale(stale: Option<Handle>)
    | OpenFile(path: string)
    | Granted(lease: Handle)
    | Stopped

  function Detach(r: Registry): (Registry, Outcome) {
    if r.leases > 0 then (r, AwaitLeases) else (r.(db := None, path := ""), CloseStale(r.db))
  }

  /** The top of acquire; `config` is the configured path, or None if it cannot be found. */
  function EnterAcquire(r: Registry, config: Option<string>): (Registry, Outcome) {
    if r.switching then (r, AwaitSwitch)
    else if config.None? then (r, Stopped)
    else if r.db.Some? && r.path != config.value then Detach(r.(switching := true))
    else if r.db.None? then (r.(switching := true), OpenFile(config.value))
    else (r.(leases := r.leases + 1), Granted(r.db.value))
  }

  function FinishOpen(r: Registry, handle: Option<Handle>, path: string): (Registry, Outcome) {
    if handle.None? then (r.(switching := false), Stopped)
    else (Registry(handle, path, r.leases + 1, false), Granted(handle.value))
  }

  function EnterSwitch(r: Registry, upToDate: bool): (Registry, Outcome) {
    if r.switching then (r, AwaitSwitch)
    else if upToDate then (r, Stopped)
    else Detach(r.(switching := true))
  }

  /** A lease given back, and whether to wake the sleepers. */
  function GivenBack(r: Registry): (Registry, bool) {
    (r.(leases := r.leases - 1), r.leases == 1)
  }

  class ConfigDBRegistry {
    var db: Option<Handle>
    var path: string
    var leases: int
    var switching: bool

    ghost function State(): Registry
      reads this
    {
      Registry(db, path, leases, switching)
    }

    constructor ()
      ensures State() == Registry(None, "", 0, false)
    {
      db, path, leases, switching := None, "", 0, false;
    }

    method DetachStale() returns (next: Outcome)
      modifies this
      ensures (State(), next) == Detach(old(State()))
    {
      if leases > 0 {
        return AwaitLeases;
      }
      next := CloseStale(db);
      db, path := None, "";
    }

    method Acquire(config: Option<string>) returns (next: Outcome)
      modifies this
      ensures (State(), next) == EnterAcquire(old(State()), config)
    {
      if switching {
        return AwaitSwitch;
      }
      if config.None? {
        return Stopped;
      }
      if db.Some? && path != config.value {
        switching := true;
        next := DetachStale();
        return;
      }
      if db.None? {
        switching := true;
        return OpenFile(config.value);
      }
      leases := leases + 1;
      next := Granted(db.value);
    }

    method OpenDone(handle: Option<Handle>, at: string) returns (next: Outcome)
      modifies this
      ensures (State(), next) == FinishOpen(old(State()), handle, at)
    {
      if handle.Some? {
        db, path := handle, at;
      }
      switching := false;
      if handle.None? {
        return Stopped;
      }
      leases := leases + 1;
      next := Granted(handle.value);
    }

    /** Returns whether to wake the sleepers; the source panics when the count goes below zero. */
    method Release() returns (wake: bool)
      requires leases > 0
      modifies this`leases
      ensures (State(), wake) == GivenBack(old(State()))
    {
      leases := leases - 1;
      wake := leases == 0;
    }

    method SwitchRootIf(upToDate: bool) returns (next: Outcome)
      modifies this
      ensures (State(), next) == EnterSwitch(old(State()), upToDate)
    {
      if switching {
        return AwaitSwitch;
      }
      if upToDate {
        return Stopped;
      }
      switching := true;
      next := DetachStale();
    }
  }

  // ---------------------------------------------------------------- the threads

  /** A root switch may be told to stop when the root is already `target`; None stands for a bare update. */
  datatype Op = Acquire | Switch(onlyIfChanged: bool, target: Option<string>)

  datatype PC =
    | Idle
    | Entering(op: Op)
    | AsleepOnSwitch(op: Op)
    | AsleepOnLeases(op: Op)
    | Rechecking(op: Op)
    | Closing(op: Op, stale: Option<Handle>)
    | Closed(op: Op, failed: bool)
    | Opening(path: string)
    | Opened(handle: Option<Handle>, path: string)

  datatype Thread = Thread(pc: PC, held: seq<Handle>)

  datatype World = World(
    reg: Registry,
    root: Option<string>,         // the configured path
    threads: seq<Thread>,
    open: set<Handle>,
    files: map<Handle, string>,   // every handle ever opened
    next: Handle)

  function Init(n: nat, root: Option<string>): World {
    World(Registry(None, "", 0, false), root, seq(n, i => Thread(Idle, [])), {}, map[], 0)
  }

  datatype Action =
    | SetRoot(root: Option<string>)          // the environment
    | Begin(t: nat, op: Op)
    | Release(t: nat)
    | Enter(t: nat)
    | Recheck(t: nat)
    | CloseFile(t: nat, fails: bool)
    | EndClose(t: nat)
    | OpenHandle(t: nat, ok: bool)
    | EndOpen(t: nat)

  predicate Enabled(w: World, a: Action) {
    a.SetRoot? || (a.t < |w.threads| &&
      var th := w.threads[a.t];
      match a
      case Begin(_, _) => th.pc.Idle?
      case Release(_) => th.pc.Idle? && th.held != []
      case Enter(_) => th.pc.Entering?
      case Recheck(_) => th.pc.Rechecking?
      case CloseFile(_, _) => th.pc.Closing?
      case EndClose(_) => th.pc.Closed?
      case OpenHandle(_, _) => th.pc.Opening?
      case EndOpen(_) => th.pc.Opened?
      case SetRoot(_) => true)
  }

  function Wake(th: Thread): Thread {
    match th.pc
    case AsleepOnSwitch(op) => th.(pc := Entering(op))
    case AsleepOnLeases(op) => th.(pc := Rechecking(op))
    case _ => th
  }

  /** sync.Cond.Broadcast. */
  function WakeAll(threads: seq<Thread>): seq<Thread> {
    seq(|threads|, i requires 0 <= i < |threads| => Wake(threads[i]))
  }

  function Goes(th: Thread, op: Op, next: Outcome): Thread {
    match next
    case AwaitSwitch => th.(pc := AsleepOnSwitch(op))
    case AwaitLeases => th.(pc := AsleepOnLeases(op))
    case CloseStale(h) => th.(pc := Closing(op, h))
    case OpenFile(p) => th.(pc := Opening(p))
    case Granted(h) => Thread(Idle, th.held + [h])
    case Stopped => th.(pc := Idle)
  }

  function Enters(w: World, op: Op): (Registry, Outcome) {
    match op
    case Acquire => EnterAcquire(w.reg, w.root)
    case Switch(onlyIfChanged, target) => EnterSwitch(w.reg, onlyIfChanged && w.root == target)
  }

  function Step(w: World, a: Action): World {
    if !Enabled(w, a) then w
    else if a.SetRoot? then w.(root := a.root)
    else
      var t, th := a.t, w.threads[a.t];
      match a
      case Begin(_, op) => w.(threads := w.threads[t := th.(pc := Entering(op))])
      case Release(_) =>
        var (reg, wake) := GivenBack(w.reg);
        var threads := w.threads[t := th.(held := th.held[1..])];
        w.(reg := reg, threads := if wake then WakeAll(threads) else threads)
      case Enter(_) =>
        var (reg, next) := Enters(w, th.pc.op);
        w.(reg := reg, threads := w.threads[t := Goes(th, th.pc.op, next)])
      case Recheck(_) =>
        var (reg, next) := Detach(w.reg);
        w.(reg := reg, threads := w.threads[t := Goes(th, th.pc.op, next)])
      case CloseFile(_, fails) =>
        var gone := if th.pc.stale.Some? then {th.pc.stale.value} else {};
        w.(open := w.open - gone, threads := w.threads[t := th.(pc := Closed(th.pc.op, fails))])
      case EndClose(_) =>
        var op := th.pc.op;
        var pc := if op == Acquire && !th.pc.failed then Entering(op) else Idle;
        w.(reg := w.reg.(switching := false),
           root := if op.Switch? && op.target.Some? then op.target else w.root,
           threads := WakeAll(w.threads[t := th.(pc := pc)]))
      case OpenHandle(_, ok) =>
        if ok then
          w.(open := w.open + {w.next}, next := w.next + 1, files := w.files[w.next := th.pc.path],
             threads := w.threads[t := th.(pc := Opened(Some(w.next), th.pc.path))])
        else w.(threads := w.threads[t := th.(pc := Opened(None, th.pc.path))])
      case EndOpen(_) =>
        var (reg, next) := FinishOpen(w.reg, th.pc.handle, th.pc.path);
        w.(reg := reg, threads := WakeAll(w.threads[t := Goes(th, Acquire, next)]))
      case SetRoot(_) => w
  }

  // ---------------------------------------------------------------- safety

  /** A thread that has set `switching` and must clear it. */
  function Owns(th: Thread): nat {
    if th.pc.Idle? || th.pc.Entering? || th.pc.AsleepOnSwitch? then 0 else 1
  }

  function Holds(th: Thread): nat {
    |th.held|
  }

  predicate Asleep(th: Thread) {
    th.pc.AsleepOnSwitch? || th.pc.AsleepOnLeases?
  }

  /** The one handle that is open outside the registry: about to be closed, or just opened. */
  function InHand(pc: PC): set<Handle> {
    if pc.Closing? && pc.stale.Some? then {pc.stale.value}
    else if pc.Opened? && pc.handle.Some? then {pc.handle.value}
    else {}
  }

  function Registered(r: Registry): set<Handle> {
    if r.db.Some? then {r.db.value} else {}
  }

  predicate Detached(pc: PC) {
    pc.Closing? || pc.Closed? || pc.Opening? || pc.Opened?
  }

  ghost predicate ThreadOK(w: World, th: Thread) {
    && (forall i :: 0 <= i < |th.held| ==> w.reg.db == Some(th.held[i]))
    && (th.pc.AsleepOnSwitch? ==> w.reg.switching)
    && (th.pc.AsleepOnLeases? ==> w.reg.leases > 0)
    && (th.pc.Rechecking? ==> w.reg.db.Some?)
    && (Detached(th.pc) ==> w.reg.db == None && w.reg.leases == 0 && w.open == InHand(th.pc))
    && (th.pc.Opened? && th.pc.handle.Some? ==> th.pc.handle.value in w.files && w.files[th.pc.handle.value] == th.pc.path)
  }

  ghost predicate Inv(w: World) {
    && (forall t :: 0 <= t < |w.threads| ==> ThreadOK(w, w.threads[t]))
    && Weight(w.threads, Owns) == (if w.reg.switching then 1 else 0)
    && Weight(w.threads, Holds) == w.reg.leases
    && (w.reg.leases > 0 ==> w.reg.db.Some?)
    && (w.reg.db.Some? || !w.reg.switching ==> w.open == Registered(w.reg))
    && (forall h :: h in w.files ==> h < w.next)
    && (w.reg.db.Some? ==> w.reg.db.value in w.files && w.files[w.reg.db.value] == w.reg.path)
  }

  lemma Recount(threads: seq<Thread>, t: nat, th: Thread)
    requires t < |threads|
    ensures Weight(threads[t := th], Owns) == Weight(threads, Owns) - Owns(threads[t]) + Owns(th)
    ensures Weight(threads[t := th], Holds) == Weight(threads, Holds) - Holds(threads[t]) + Holds(th)
    ensures Weight(WakeAll(threads[t := th]), Owns) == Weight(threads[t := th], Owns)
    ensures Weight(WakeAll(threads[t := th]), Holds) == Weight(threads[t := th], Holds)
  {
    WeightUpdate(threads, t, th, Owns);
    WeightUpdate(threads, t, th, Holds);
    WeightSame(threads[t := th], WakeAll(threads[t := th]), Owns);
    WeightSame(threads[t := th], WakeAll(threads[t := th]), Holds);
  }

  lemma OthersFree(w: World, t: nat)
    requires Inv(w) && t < |w.threads| && (Owns(w.threads[t]) == 1 || !w.reg.switching)
    ensures forall u :: 0 <= u < |w.threads| && u != t ==> Owns(w.threads[u]) == 0
  {
    forall u | 0 <= u < |w.threads| && u != t
      ensures Owns(w.threads[u]) == 0
    {
      WeightAtLeast(w.threads, u, Owns);
      if t < u {
        WeightAtLeastTwo(w.threads, t, u, Owns);
      } else {
        WeightAtLeastTwo(w.threads, u, t, Owns);
      }
    }
  }

  lemma NoneHeld(w: World)
    requires Inv(w) && w.reg.leases == 0
    ensures forall u :: 0 <= u < |w.threads| ==> w.threads[u].held == []
  {
    forall u | 0 <= u < |w.threads|
      ensures w.threads[u].held == []
    {
      WeightAtLeast(w.threads, u, Holds);
    }
  }

  lemma EnterKeeps(w: World, t: nat)
    requires Inv(w) && Enabled(w, Enter(t))
    ensures Inv(Step(w, Enter(t)))
  {
    hide Weight;
    Recount(w.threads, t, Step(w, Enter(t)).threads[t]);
    if !w.reg.switching {
      OthersFree(w, t);
      WeightAtLeast(w.threads, t, Owns);
    }
    if w.reg.leases == 0 {
      NoneHeld(w);
    }
  }

  lemma RecheckKeeps(w: World, t: nat)
    requires Inv(w) && Enabled(w, Recheck(t))
    ensures Inv(Step(w, Recheck(t)))
  {
    hide Weight;
    Recount(w.threads, t, Step(w, Recheck(t)).threads[t]);
    OthersFree(w, t);
    WeightAtLeast(w.threads, t, Owns);
    if w.reg.leases == 0 {
      NoneHeld(w);
    }
  }

  lemma FileKeeps(w: World, a: Action)
    requires Inv(w) && Enabled(w, a) && (a.CloseFile? || a.OpenHandle?)
    ensures Inv(Step(w, a))
  {
    hide Weight;
    OthersFree(w, a.t);
    WeightAtLeast(w.threads, a.t, Owns);
    Recount(w.threads, a.t, Step(w, a).threads[a.t]);
  }

  lemma EndCloseKeeps(w: World, t: nat)
    requires Inv(w) && Enabled(w, EndClose(t))
    ensures Inv(Step(w, EndClose(t)))
  {
    hide Weight;
    var th := w.threads[t];
    OthersFree(w, t);
    WeightAtLeast(w.threads, t, Owns);
    Recount(w.threads, t, th.(pc := if th.pc.op == Acquire && !th.pc.failed then Entering(th.pc.op) else Idle));
  }

  lemma EndOpenKeeps(w: World, t: nat)
    requires Inv(w) && Enabled(w, EndOpen(t))
    ensures Inv(Step(w, EndOpen(t)))
  {
    hide Weight;
    var th := w.threads[t];
    OthersFree(w, t);
    NoneHeld(w);
    WeightAtLeast(w.threads, t, Owns);
    Recount(w.threads, t, Goes(th, Acquire, FinishOpen(w.reg, th.pc.handle, th.pc.path).1));
  }

  lemma ReleaseKeeps(w: World, t: nat)
    requires Inv(w) && Enabled(w, Release(t))
    ensures Inv(Step(w, Release(t)))
  {
    hide Weight;
    WeightAtLeast(w.threads, t, Holds);
    Recount(w.threads, t, w.threads[t].(held := w.threads[t].held[1..]));
  }

  lemma StepKeeps(w: World, a: Action)
    requires Inv(w)
    ensures Inv(Step(w, a))
  {
    hide Weight;
    if Enabled(w, a) {
      match a {
        case SetRoot(_) => assert forall th :: ThreadOK(w, th) ==> ThreadOK(Step(w, a), th);
        case Begin(t, op) => Recount(w.threads, t, w.threads[t].(pc := Entering(op)));
        case Release(t) => ReleaseKeeps(w, t);
        case Enter(t) => EnterKeeps(w, t);
        case Recheck(t) => RecheckKeeps(w, t);
        case EndClose(t) => EndCloseKeeps(w, t);
        case EndOpen(t) => EndOpenKeeps(w, t);
        case _ => FileKeeps(w, a);
      }
    }
  }

  function Run(w: World, trace: seq<Action>): World
    decreases |trace|
  {
    if trace == [] then w else Run(Step(w, trace[0]), trace[1..])
  }

  lemma InitInv(n: nat, root: Option<string>)
    ensures Inv(Init(n, root))
  {
    var idle := seq(n, i => Thread(Idle, []));
    AllIdle(idle);
  }

  lemma {:induction false} AllIdle(threads: seq<Thread>)
    requires forall t :: 0 <= t < |threads| ==> threads[t] == Thread(Idle, [])
    ensures Weight(threads, Owns) == 0 && Weight(threads, Holds) == 0
  {
    if threads == [] {
    } else {
      AllIdle(threads[1..]);
    }
  }

  lemma {:induction false} RunKeeps(w: World, trace: seq<Action>)
    requires Inv(w)
    ensures Inv(Run(w, trace))
    decreases |trace|
  {
    if trace == [] {
    } else {
      StepKeeps(w, trace[0]);
      RunKeeps(Step(w, trace[0]), trace[1..]);
    }
  }

  ghost predicate Safe(w: World) {
    && (forall h, g :: h in w.open && g in w.open ==> h == g)
    && forall t, i :: 0 <= t < |w.threads| && 0 <= i < |w.threads[t].held| ==>
         w.threads[t].held[i] in w.open && w.reg.db == Some(w.threads[t].held[i])
  }

  predicate NoLeases(w: World) {
    forall t :: 0 <= t < |w.threads| ==> w.threads[t].held == []
  }

  /** In every reachable state of any number of threads at most one handle is open and every lease is on it; a step
      that closes a handle, or that runs a root update, finds no lease out and no handle registered, and the update
      no handle open at all; and a release never takes the lease count below zero. */
  lemma HandleNeverClosedUnderLease(n: nat, root: Option<string>, trace: seq<Action>, a: Action)
    ensures var w := Run(Init(n, root), trace);
            && Safe(w)
            && (Step(w, a).open < w.open ==> NoLeases(w) && w.reg.db == None)
            && (Enabled(w, a) && a.EndClose? ==> NoLeases(w) && w.reg.db == None && w.open == {})
            && (Enabled(w, a) && a.Release? ==> w.reg.leases > 0)
  {
    InitInv(n, root);
    RunKeeps(Init(n, root), trace);
    var w := Run(Init(n, root), trace);
    OneOpen(w);
    if w.reg.leases == 0 {
      NoneHeld(w);
    }
    if Enabled(w, a) && a.Release? {
      WeightAtLeast(w.threads, a.t, Holds);
    }
  }

  lemma OneOpen(w: World)
    requires Inv(w)
    ensures Safe(w)
  {
    forall t, i | 0 <= t < |w.threads| && 0 <= i < |w.threads[t].held|
      ensures w.threads[t].held[i] in w.open && w.reg.db == Some(w.threads[t].held[i])
    {
      assert ThreadOK(w, w.threads[t]);
    }
    if w.reg.switching && w.reg.db == None {
      var t := WeightPositive(w.threads, Owns);
      assert ThreadOK(w, w.threads[t]);
    }
  }

  // ---------------------------------------------------------------- the lease is on the configured file

  /** What holds while the root is changed by switches only. */
  ghost predicate Rooted(w: World) {
    && (w.reg.db.Some? ==> w.root == Some(w.reg.path))
    && forall t :: 0 <= t < |w.threads| ==>
         (w.threads[t].pc.Opening? || w.threads[t].pc.Opened? ==> w.root == Some(w.threads[t].pc.path))
  }

  lemma StepRooted(w: World, a: Action)
    requires Inv(w) && Rooted(w) && !a.SetRoot?
    ensures Rooted(Step(w, a))
  {
    hide Weight;
    if Enabled(w, a) && (a.EndClose? || a.EndOpen?) {
      OthersFree(w, a.t) by {
        WeightAtLeast(w.threads, a.t, Owns);
      }
    }
  }

  ghost predicate LeasesCurrent(w: World) {
    forall t, i :: 0 <= t < |w.threads| && 0 <= i < |w.threads[t].held| ==>
      w.threads[t].held[i] in w.files && w.root == Some(w.files[w.threads[t].held[i]])
  }

  /** When the root changes only through switchRootIf, every lease out is on the file that is configured now. */
  lemma {:induction false} LeasesOnRoot(w: World, trace: seq<Action>)
    requires Inv(w) && Rooted(w) && forall i :: 0 <= i < |trace| ==> !trace[i].SetRoot?
    ensures LeasesCurrent(Run(w, trace))
    decreases |trace|
  {
    if trace == [] {
      OneOpen(w);
    } else {
      StepKeeps(w, trace[0]);
      StepRooted(w, trace[0]);
      LeasesOnRoot(Step(w, trace[0]), trace[1..]);
    }
  }

  // ---------------------------------------------------------------- what an acquire gets

  /** Entered while no switch is under way, an acquire gets a lease on the registered handle when that is of the
      configured file, and touches nothing else; opens the file when none is registered; shuts others out and closes
      what is registered, once no lease is on it, when that is of another file; and fails without a configured file. */
  lemma AcquireExact(w: World, t: nat)
    requires Inv(w) && t < |w.threads| && w.threads[t].pc == Entering(Acquire) && !w.reg.switching
    ensures var w', th := Step(w, Enter(t)), w.threads[t]; var th' := w'.threads[t];
            && w'.open == w.open && w'.root == w.root
            && (if w.root.None? then th' == th.(pc := Idle) && w'.reg == w.reg
                else if w.reg.db.None? then th' == th.(pc := Opening(w.root.value)) && w'.reg == w.reg.(switching := true)
                else if w.reg.path == w.root.value then
                  th' == Thread(Idle, th.held + [w.reg.db.value]) && w'.reg == w.reg.(leases := w.reg.leases + 1)
                else if w.reg.leases > 0 then
                  th' == th.(pc := AsleepOnLeases(Acquire)) && w'.reg == w.reg.(switching := true)
                else
                  th' == th.(pc := Closing(Acquire, w.reg.db)) && w'.reg == Registry(None, "", 0, true))
  {
    hide Weight;
  }

  /** The two steps by which an acquire opens the file end the switch: with a fresh handle registered and leased, and no
      other open, or with nothing. */
  lemma OpeningEnds(w: World, t: nat, ok: bool)
    requires Inv(w) && t < |w.threads| && w.threads[t].pc.Opening?
    ensures var w', th := Step(Step(w, OpenHandle(t, ok)), EndOpen(t)), w.threads[t];
            && t < |w'.threads| && !w'.reg.switching && w'.threads[t].pc.Idle?
            && (if ok then
                  && w'.reg == Registry(Some(w.next), th.pc.path, 1, false) && w'.threads[t].held == th.held + [w.next]
                  && w'.open == {w.next} && w.next in w'.files && w'.files[w.next] == th.pc.path
                else w'.reg == w.reg.(switching := false) && w'.threads[t].held == th.held && w'.open == {})
  {
    hide Weight;
    assert ThreadOK(w, w.threads[t]);
    var w1 := Step(w, OpenHandle(t, ok));
    assert Enabled(w1, EndOpen(t));
  }

  /** Who comes while a switch is under way goes to sleep. It looks again when the switch is over, or when the last lease
      has been given back, and not before; the one that waits for the leases looks again exactly then. */
  lemma SleepsUntil(w: World, a: Action, t: nat)
    requires Inv(w) && t < |w.threads|
    ensures var w', pc := Step(w, a), w.threads[t].pc; var pc' := w'.threads[t].pc;
            && (pc.Entering? && a == Enter(t) && w.reg.switching ==>
                  w' == w.(threads := w.threads[t := w.threads[t].(pc := AsleepOnSwitch(pc.op))]))
            && (pc.AsleepOnSwitch? ==> pc' == pc || pc' == Entering(pc.op))
            && (pc.AsleepOnSwitch? && !w'.reg.switching ==> pc' == Entering(pc.op))
            && (pc.AsleepOnSwitch? && w'.reg.switching && w'.reg.leases == w.reg.leases ==> pc' == pc)
            && (pc.AsleepOnLeases? ==> pc' == if w'.reg.leases > 0 then pc else Rechecking(pc.op))
  {
    hide Weight;
    if Enabled(w, a) && !a.SetRoot? && a.t != t {
      assert ThreadOK(w, w.threads[t]);
      if w.threads[t].pc.AsleepOnLeases? {
        OthersFree(w, t);
        WeightAtLeast(w.threads, a.t, Owns);
      }
    }
  }

  // ---------------------------------------------------------------- a root switch takes effect

  function OpOf(pc: PC): Option<Op> {
    match pc
    case Entering(op) => Some(op)
    case AsleepOnSwitch(op) => Some(op)
    case AsleepOnLeases(op) => Some(op)
    case Rechecking(op) => Some(op)
    case Closing(op, _) => Some(op)
    case Closed(op, _) => Some(op)
    case _ => None
  }

  /** A switch to a root returns only when that root is configured. */
  lemma SwitchReturns(w: World, a: Action, t: nat, onlyIfChanged: bool, root: string)
    requires t < |w.threads| && OpOf(w.threads[t].pc) == Some(Switch(onlyIfChanged, Some(root)))
    ensures var w' := Step(w, a); t < |w'.threads| && (w'.threads[t].pc.Idle? ==> w'.root == Some(root))
  {
  }

  /** One that is to keep an unchanged root leaves registry and files alone when the root is that already. */
  lemma UnchangedSwitchKeeps(w: World, t: nat, root: Option<string>)
    requires t < |w.threads| && w.threads[t].pc == Entering(Switch(true, root)) && w.root == root && !w.reg.switching
    ensures Step(w, Enter(t)) == w.(threads := w.threads[t := w.threads[t].(pc := Idle)])
  {
  }

  /** A switch under way: it has shut out all others, and the handle it found is registered until it is closed. */
  ghost predicate SwitchUnderWay(w: World, t: nat, op: Op, stale: Option<Handle>) {
    && t < |w.threads| && w.reg.switching && (stale.Some? ==> stale.value < w.next)
    && match w.threads[t].pc
       case AsleepOnLeases(o) => o == op && w.reg.db == stale
       case Rechecking(o) => o == op && w.reg.db == stale
       case Closing(o, h) => o == op && h == stale
       case Closed(o, _) => o == op && (stale.Some? ==> stale.value !in w.open)
       case _ => false
  }

  /** Any other switch gets under way once none is. */
  lemma SwitchBegins(w: World, t: nat, op: Op)
    requires Inv(w) && t < |w.threads| && w.threads[t].pc == Entering(op) && op.Switch? && !w.reg.switching
    requires op.onlyIfChanged ==> w.root != op.target
    ensures SwitchUnderWay(Step(w, Enter(t)), t, op, w.reg.db)
    ensures w.reg.leases == 0 ==> Step(w, Enter(t)).threads[t].pc == Closing(op, w.reg.db)
  {
    hide Weight;
  }

  /** Once under way it goes on until it has closed the handle and run its update; no other thread gets in between. */
  lemma SwitchStep(w: World, a: Action, t: nat, op: Op, stale: Option<Handle>)
    requires Inv(w) && SwitchUnderWay(w, t, op, stale) && op.Switch?
    ensures var w' := Step(w, a);
            SwitchUnderWay(w', t, op, stale) || (a == EndClose(t) && Enabled(w, a) && SwitchOver(w, w', op, stale))
  {
    hide Weight;
    if Enabled(w, a) && !a.SetRoot? && a.t != t {
      OthersFree(w, t);
    }
  }

  /** The last step of a switch: the handle it found is closed, no other is open, and the update has been run. */
  ghost predicate SwitchOver(w: World, w': World, op: Op, stale: Option<Handle>)
    requires op.Switch?
  {
    && (stale.Some? ==> stale.value !in w.open) && w'.open == {} && w'.reg.db == None && !w'.reg.switching
    && w'.root == if op.target.Some? then op.target else w.root
  }

  lemma StepCounts(w: World, a: Action)
    ensures w.next <= Step(w, a).next
  {
  }

  /** Over a whole run: it is still under way, or has ended so. */
  lemma {:induction false} SwitchRuns(w: World, trace: seq<Action>, t: nat, op: Op, stale: Option<Handle>)
    returns (k: nat)
    requires Inv(w) && SwitchUnderWay(w, t, op, stale) && op.Switch?
    ensures k <= |trace|
    ensures k == |trace| ==> SwitchUnderWay(Run(w, trace), t, op, stale)
    ensures k < |trace| ==>
              && trace[k] == EndClose(t) && Enabled(Run(w, trace[..k]), trace[k])
              && SwitchOver(Run(w, trace[..k]), Step(Run(w, trace[..k]), trace[k]), op, stale)
    decreases |trace|
  {
    if trace == [] {
      k := 0;
    } else {
      hide Step, SwitchUnderWay, Enabled, Inv, SwitchOver;
      SwitchStep(w, trace[0], t, op, stale);
      StepKeeps(w, trace[0]);
      if SwitchUnderWay(Step(w, trace[0]), t, op, stale) {
        var i := SwitchRuns(Step(w, trace[0]), trace[1..], t, op, stale);
        k := i + 1;
        assert trace[..k][1..] == trace[1..][..i] && trace[..k][0] == trace[0];
      } else {
        k := 0;
        assert trace[..0] == [];
      }
    }
  }

  /** A switch to another root, or a bare one, entered while none is under way, ends only with the old handle closed and
      its root configured; and until then some thread can always go on, if none enters while it holds a lease. */
  lemma SwitchTakesEffect(w: World, trace: seq<Action>, t: nat, op: Op) returns (k: nat)
    requires Inv(w) && t < |w.threads| && w.threads[t].pc == Entering(op) && op.Switch? && !w.reg.switching
    requires op.onlyIfChanged ==> w.root != op.target
    ensures var w1 := Step(w, Enter(t)); var w' := Run(w1, trace);
            && k <= |trace|
            && (k == |trace| ==> SwitchUnderWay(w', t, op, w.reg.db) && (Disciplined(w1) && PoliteRun(w1, trace) ==> !Stuck(w')))
            && (k < |trace| ==>
                  && trace[k] == EndClose(t) && Enabled(Run(w1, trace[..k]), trace[k])
                  && SwitchOver(Run(w1, trace[..k]), Step(Run(w1, trace[..k]), trace[k]), op, w.reg.db))
  {
    SwitchBegins(w, t, op);
    StepKeeps(w, Enter(t));
    hide Step, SwitchUnderWay, Enabled, Inv, SwitchOver, Disciplined, PoliteRun, Stuck;
    var w1 := Step(w, Enter(t));
    k := SwitchRuns(w1, trace, t, op, w.reg.db);
    if Disciplined(w1) && PoliteRun(w1, trace) {
      NeverStuck(w1, trace);
    }
  }

  // ---------------------------------------------------------------- progress

  /** A caller starts acquire or switchRootIf only when it holds no lease. */
  predicate Polite(w: World, a: Action) {
    a.Begin? && Enabled(w, a) ==> w.threads[a.t].held == []
  }

  predicate PoliteRun(w: World, trace: seq<Action>)
    decreases |trace|
  {
    trace == [] || (Polite(w, trace[0]) && PoliteRun(Step(w, trace[0]), trace[1..]))
  }

  ghost predicate Disciplined(w: World) {
    forall t :: 0 <= t < |w.threads| && !w.threads[t].pc.Idle? && !w.threads[t].pc.Opened? ==> w.threads[t].held == []
  }

  predicate Unfinished(th: Thread) {
    !th.pc.Idle? || th.held != []
  }

  /** Someone is inside the registry or holds a lease, and no thread can take a step or release. */
  ghost predicate Stuck(w: World) {
    && (exists t :: 0 <= t < |w.threads| && Unfinished(w.threads[t]))
    && forall a: Action :: !a.SetRoot? && !a.Begin? ==> !Enabled(w, a)
  }

  /** The step a thread that is not asleep can take. */
  function NextOf(t: nat, th: Thread): Action {
    match th.pc
    case Entering(_) => Enter(t)
    case Rechecking(_) => Recheck(t)
    case Closing(_, _) => CloseFile(t, false)
    case Closed(_, _) => EndClose(t)
    case Opening(_) => OpenHandle(t, true)
    case Opened(_, _) => EndOpen(t)
    case _ => Release(t)
  }

  /** A stuck state always has a thread that sleeps inside the registry while it holds a lease itself. */
  lemma StuckHolderAsleep(w: World) returns (u: nat)
    requires Inv(w) && Stuck(w)
    ensures u < |w.threads| && Asleep(w.threads[u]) && w.threads[u].held != []
  {
    forall t | 0 <= t < |w.threads|
      ensures w.threads[t].pc.Idle? ==> w.threads[t].held == []
      ensures w.threads[t].pc.Idle? || Asleep(w.threads[t])
    {
      assert !Enabled(w, NextOf(t, w.threads[t]));
    }
    var t :| 0 <= t < |w.threads| && Unfinished(w.threads[t]);
    assert ThreadOK(w, w.threads[t]);
    if w.threads[t].pc.AsleepOnSwitch? {
      var o := WeightPositive(w.threads, Owns);
      assert w.threads[o].pc.AsleepOnLeases? && ThreadOK(w, w.threads[o]);
    } else {
      assert w.threads[t].pc.AsleepOnLeases?;
    }
    u := WeightPositive(w.threads, Holds);
  }

  lemma StepDisciplined(w: World, a: Action)
    requires Inv(w) && Disciplined(w) && Polite(w, a)
    ensures Disciplined(Step(w, a))
  {
    hide Weight;
  }

  /** If no thread acquires or switches while it holds a lease, some step is always enabled. */
  lemma {:induction false} NeverStuck(w: World, trace: seq<Action>)
    requires Inv(w) && Disciplined(w) && PoliteRun(w, trace)
    ensures !Stuck(Run(w, trace))
    decreases |trace|
  {
    if trace == [] {
      if Stuck(w) {
        var u := StuckHolderAsleep(w);
        assert false;
      }
    } else {
      StepKeeps(w, trace[0]);
      StepDisciplined(w, trace[0]);
      NeverStuck(Step(w, trace[0]), trace[1..]);
    }
  }

  lemma InitDisciplined(n: nat, root: Option<string>)
    ensures Inv(Init(n, root)) && Disciplined(Init(n, root)) && Rooted(Init(n, root))
  {
    InitInv(n, root);
  }

  /** A world of one thread. */
  function Alone(reg: Registry, root: string, pc: PC, held: seq<Handle>, open: set<Handle>, files: map<Handle, string>,
                 next: Handle): World
  {
    World(reg, Some(root), [Thread(pc, held)], open, files, next)
  }

  const FIRST_LEASE: seq<Action> := [Begin(0, Acquire), Enter(0), OpenHandle(0, true), EndOpen(0)]
  const SECOND_TRY: seq<Action> := [SetRoot(Some("b")), Begin(0, Acquire), Enter(0)]

  lemma FirstLease(rest: seq<Action>)
    ensures Run(Init(1, Some("a")), FIRST_LEASE + rest)
         == Run(Alone(Registry(Some(0), "a", 1, false), "a", Idle, [0], {0}, map[0 := "a"], 1), rest)
  {
    var s := FIRST_LEASE + rest;
    var free, taken := Registry(None, "", 0, false), Registry(None, "", 0, true);
    var w0, w1 := Alone(free, "a", Idle, [], {}, map[], 0), Alone(free, "a", Entering(Acquire), [], {}, map[], 0);
    var w2 := Alone(taken, "a", Opening("a"), [], {}, map[], 0);
    var w3 := Alone(taken, "a", Opened(Some(0), "a"), [], {0}, map[0 := "a"], 1);
    var w4 := Alone(Registry(Some(0), "a", 1, false), "a", Idle, [0], {0}, map[0 := "a"], 1);
    assert Init(1, Some("a")) == w0;
    assert Step(w0, s[0]) == w1 && Step(w1, s[1]) == w2 && Step(w2, s[2]) == w3;
    assert [] + [0] == [0] && WakeAll([Thread(Idle, [0])]) == [Thread(Idle, [0])];
    assert Goes(w3.threads[0], Acquire, Granted(0)) == Thread(Idle, [0]);
    assert w3.threads[0 := Thread(Idle, [0])] == [Thread(Idle, [0])];
    assert Step(w3, s[3]) == w4;
    hide Step;
    assert s[1..][1..] == s[2..] && s[2..][1..] == s[3..] && s[3..][1..] == rest;
    assert Run(w0, s) == Run(w1, s[1..]) == Run(w2, s[2..]) == Run(w3, s[3..]) == Run(w4, rest);
  }

  lemma SecondTry()
    ensures Run(Alone(Registry(Some(0), "a", 1, false), "a", Idle, [0], {0}, map[0 := "a"], 1), SECOND_TRY)
         == Alone(Registry(Some(0), "a", 1, true), "b", AsleepOnLeases(Acquire), [0], {0}, map[0 := "a"], 1)
  {
    var s, reg := SECOND_TRY, Registry(Some(0), "a", 1, false);
    var w0 := Alone(reg, "a", Idle, [0], {0}, map[0 := "a"], 1);
    var w1 := Alone(reg, "b", Idle, [0], {0}, map[0 := "a"], 1);
    var w2 := Alone(reg, "b", Entering(Acquire), [0], {0}, map[0 := "a"], 1);
    var w3 := Alone(reg.(switching := true), "b", AsleepOnLeases(Acquire), [0], {0}, map[0 := "a"], 1);
    assert Step(w0, s[0]) == w1 && Step(w1, s[1]) == w2 && Step(w2, s[2]) == w3;
    hide Step;
    assert s[1..][1..] == s[2..] && s[2..][1..] == [];
    assert Run(w0, s) == Run(w1, s[1..]) == Run(w2, s[2..]) == Run(w3, []) == w3;
  }

  /** Without that discipline a thread can deadlock on its own lease: it holds one, the configured path changes,
      and its next acquire waits for the lease to come back. */
  lemma SelfDeadlock()
    ensures Stuck(Run(Init(1, Some("a")), FIRST_LEASE + SECOND_TRY))
  {
    FirstLease(SECOND_TRY);
    SecondTry();
    var w := Alone(Registry(Some(0), "a", 1, true), "b", AsleepOnLeases(Acquire), [0], {0}, map[0 := "a"], 1);
    assert Unfinished(w.threads[0]);
    assert Stuck(w);
  }
}
