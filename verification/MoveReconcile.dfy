/** State-driven retries of one remote move (mutation_reconcile.go), against a provider that may stop part way. */
module MoveReconcile {
  import opened VirtualPaths

  type Content = string

  /** The bucket: object keys as segment sequences. The marker key "a/b/" is the path ["a", "b", ""]. */
  type Store = map<Path, Content>

  datatype Move = Move(src: Path, dst: Path, isDir: bool)

  predicate Covers(m: Move, k: Path) {
    if m.isDir then m.src < k else k == m.src
  }

  function Target(m: Move, k: Path): Path
    requires Covers(m, k)
  {
    Rebase(k, m.src, m.dst)
  }

  function Sources(s: Store, m: Move): set<Path> {
    set k | k in s && Covers(m, k)
  }

  /** A file is probed by its key, a directory by its marker or any object below it. */
  predicate Probe(s: Store, p: Path, isDir: bool) {
    if isDir then exists k :: k in s && p < k else p in s
  }

  // ---------------------------------------------------------------- provider steps

  function CopyKey(s: Store, m: Move, k: Path): Store {
    if k in s && Covers(m, k) then s[Target(m, k) := s[k]] else s
  }

  function DropKey(s: Store, m: Move, k: Path): Store {
    if Covers(m, k) then s - {k} else s
  }

  /** Inside a move a key is dropped only once its copy is there. */
  function DropMoved(s: Store, m: Move, k: Path): Store {
    if k in s && Covers(m, k) && Target(m, k) in s && s[Target(m, k)] == s[k] then s - {k} else s
  }

  datatype Step = Copy(key: Path) | Drop(key: Path)

  function RunMove(s: Store, m: Move, steps: seq<Step>): Store
    decreases |steps|
  {
    if steps == [] then s
    else match steps[0]
      case Copy(k) => RunMove(CopyKey(s, m, k), m, steps[1..])
      case Drop(k) => RunMove(DropMoved(s, m, k), m, steps[1..])
  }

  function RunCopy(s: Store, m: Move, keys: seq<Path>): Store
    decreases |keys|
  {
    if keys == [] then s else RunCopy(CopyKey(s, m, keys[0]), m, keys[1..])
  }

  function RunDrop(s: Store, m: Move, keys: seq<Path>): Store
    decreases |keys|
  {
    if keys == [] then s else RunDrop(DropKey(s, m, keys[0]), m, keys[1..])
  }

  /** A copy may claim success only if every source object of its start is at its target. */
  predicate CopyComplete(before: Store, after: Store, m: Move) {
    forall k :: k in before && Covers(m, k) ==> Target(m, k) in after && after[Target(m, k)] == before[k]
  }

  /** What the provider does in one pass: which steps it reaches, what it reports, which probes fail. */
  datatype Provider = Provider(
    moveSteps: seq<Step>, moveOk: bool, copyKeys: seq<Path>, copyOk: bool, dropKeys: seq<Path>, dropOk: bool,
    probeErrors: (bool, bool, bool, bool))

  datatype Outcome = Done | BadPaths | ProviderError | Conflict | SourceLeft | DestinationAbsent

  function CheckAfter(s: Store, m: Move, p: Provider): Outcome {
    if p.probeErrors.2 then ProviderError
    else if Probe(s, m.src, m.isDir) then SourceLeft
    else if p.probeErrors.3 then ProviderError
    else if !Probe(s, m.dst, m.isDir) then DestinationAbsent
    else Done
  }

  /** One reconcile pass: the bucket it leaves and what it returns. */
  function Pass(s: Store, m: Move, p: Provider): (Store, Outcome) {
    if m.src == [] || m.dst == [] then (s, BadPaths)
    else if p.probeErrors.0 || p.probeErrors.1 then (s, ProviderError)
    else
      var source, destination := Probe(s, m.src, m.isDir), Probe(s, m.dst, m.isDir);
      if !source && destination then (s, Done)
      else if source && !destination then
        var moved := RunMove(s, m, p.moveSteps);
        (moved, if p.moveOk then CheckAfter(moved, m, p) else ProviderError)
      else if source && destination then
        var copied := RunCopy(s, m, p.copyKeys);
        if !(p.copyOk && CopyComplete(s, copied, m)) then (copied, ProviderError)
        else
          var dropped := RunDrop(copied, m, p.dropKeys);
          (dropped, if p.dropOk then CheckAfter(dropped, m, p) else ProviderError)
      else (s, Conflict)
  }

  class Bucket {
    var store: Store

    constructor (store: Store)
      ensures this.store == store
    {
      this.store := store;
    }

    method MoveObject(m: Move, steps: seq<Step>, reportOk: bool) returns (ok: bool)
      modifies this
      ensures store == RunMove(old(store), m, steps) && ok == reportOk
    {
      var i := 0;
      while i < |steps|
        invariant i <= |steps| && RunMove(store, m, steps[i..]) == RunMove(old(store), m, steps)
        decreases |steps| - i
      {
        assert steps[i..][1..] == steps[i + 1..];
        match steps[i] {
          case Copy(k) => store := CopyKey(store, m, k);
          case Drop(k) => store := DropMoved(store, m, k);
        }
        i := i + 1;
      }
      ok := reportOk;
    }

    method CopyObject(m: Move, keys: seq<Path>, reportOk: bool) returns (ok: bool)
      modifies this
      ensures store == RunCopy(old(store), m, keys) && ok == (reportOk && CopyComplete(old(store), store, m))
    {
      var before, i := store, 0;
      while i < |keys|
        invariant i <= |keys| && RunCopy(store, m, keys[i..]) == RunCopy(old(store), m, keys)
        decreases |keys| - i
      {
        assert keys[i..][1..] == keys[i + 1..];
        store := CopyKey(store, m, keys[i]);
        i := i + 1;
      }
      ok := reportOk && CopyComplete(before, store, m);
    }

    method DeleteObjectHard(m: Move, keys: seq<Path>, reportOk: bool) returns (ok: bool)
      modifies this
      ensures store == RunDrop(old(store), m, keys) && ok == reportOk
    {
      var i := 0;
      while i < |keys|
        invariant i <= |keys| && RunDrop(store, m, keys[i..]) == RunDrop(old(store), m, keys)
        decreases |keys| - i
      {
        assert keys[i..][1..] == keys[i + 1..];
        store := DropKey(store, m, keys[i]);
        i := i + 1;
      }
      ok := reportOk;
    }

    method ReconcileRemoteMove(m: Move, p: Provider) returns (outcome: Outcome)
      modifies this
      ensures (store, outcome) == Pass(old(store), m, p)
    {
      if m.src == [] || m.dst == [] {
        return BadPaths;
      }
      if p.probeErrors.0 {
        return ProviderError;
      }
      var sourceExists := Probe(store, m.src, m.isDir);
      if p.probeErrors.1 {
        return ProviderError;
      }
      var destinationExists := Probe(store, m.dst, m.isDir);
      if !sourceExists && destinationExists {
        return Done;
      } else if sourceExists && !destinationExists {
        var ok := MoveObject(m, p.moveSteps, p.moveOk);
        if !ok {
          return ProviderError;
        }
      } else if sourceExists && destinationExists {
        var ok := CopyObject(m, p.copyKeys, p.copyOk);
        if !ok {
          return ProviderError;
        }
        ok := DeleteObjectHard(m, p.dropKeys, p.dropOk);
        if !ok {
          return ProviderError;
        }
      } else {
        return Conflict;
      }
      if p.probeErrors.2 {
        return ProviderError;
      }
      if Probe(store, m.src, m.isDir) {
        return SourceLeft;
      }
      if p.probeErrors.3 {
        return ProviderError;
      }
      if !Probe(store, m.dst, m.isDir) {
        return DestinationAbsent;
      }
      return Done;
    }
  }

  // ---------------------------------------------------------------- safety over every run

  /** Every object that was at the source can still be read at its source or its target key. */
  ghost predicate Readable(s0: Store, s: Store, m: Move) {
    forall k :: k in s0 && Covers(m, k) ==>
      (k in s && s[k] == s0[k]) || (Target(m, k) in s && s[Target(m, k)] == s0[k])
  }

  /** The keys a move may touch: its source objects and their targets. */
  ghost predicate Touchable(s0: Store, m: Move, k: Path) {
    Covers(m, k) || exists o :: o in s0 && Covers(m, o) && k == Target(m, o)
  }

  /** What every pass keeps, measured against the bucket `s0` of the first pass. */
  ghost predicate Safe(s0: Store, s: Store, m: Move) {
    && Readable(s0, s, m)
    && (forall k :: k in s && Covers(m, k) ==> k in s0 && s[k] == s0[k])
    && (forall k :: !Touchable(s0, m, k) ==> (k in s <==> k in s0) && (k in s ==> s[k] == s0[k]))
  }

  lemma TargetFacts(m: Move, k: Path)
    requires Apart(m.src, m.dst, m.isDir) && Covers(m, k)
    ensures !Covers(m, Target(m, k))
    ensures forall o :: Covers(m, o) && Target(m, o) == Target(m, k) ==> o == k
  {
    if m.isDir {
      RebaseInverse(k, m.src, m.dst, true);
    }
    forall o | Covers(m, o) && Target(m, o) == Target(m, k)
      ensures o == k
    {
      RebaseInjective(o, k, m.src, m.dst);
    }
  }

  lemma CopySafe(s0: Store, s: Store, m: Move, k: Path)
    requires Apart(m.src, m.dst, m.isDir) && Safe(s0, s, m)
    ensures Safe(s0, CopyKey(s, m, k), m)
  {
    if k in s && Covers(m, k) {
      TargetFacts(m, k);
    }
  }

  lemma DropSafe(s0: Store, s: Store, m: Move, k: Path)
    requires Safe(s0, s, m)
    requires k in s && Covers(m, k) ==> Target(m, k) in s && s[Target(m, k)] == s[k]
    requires Apart(m.src, m.dst, m.isDir)
    ensures Safe(s0, DropKey(s, m, k), m)
  {
    if k in s && Covers(m, k) {
      TargetFacts(m, k);
      forall o | o in s0 && Covers(m, o)
        ensures var d := DropKey(s, m, k);
                (o in d && d[o] == s0[o]) || (Target(m, o) in d && d[Target(m, o)] == s0[o])
      {
        TargetFacts(m, o);
      }
    }
  }

  lemma {:induction false} RunMoveSafe(s0: Store, s: Store, m: Move, steps: seq<Step>)
    requires Apart(m.src, m.dst, m.isDir) && Safe(s0, s, m)
    ensures Safe(s0, RunMove(s, m, steps), m)
    decreases |steps|
  {
    if steps == [] {
    } else {
      match steps[0]
      case Copy(k) =>
        CopySafe(s0, s, m, k);
        RunMoveSafe(s0, CopyKey(s, m, k), m, steps[1..]);
      case Drop(k) =>
        if k in s && Covers(m, k) && Target(m, k) in s && s[Target(m, k)] == s[k] {
          DropSafe(s0, s, m, k);
        }
        RunMoveSafe(s0, DropMoved(s, m, k), m, steps[1..]);
    }
  }

  /** Copying keeps the source objects as they are. */
  lemma {:induction false} RunCopySafe(s0: Store, s: Store, m: Move, keys: seq<Path>)
    requires Apart(m.src, m.dst, m.isDir) && Safe(s0, s, m)
    ensures Safe(s0, RunCopy(s, m, keys), m)
    ensures forall k :: Covers(m, k) ==>
      var c := RunCopy(s, m, keys); (k in c <==> k in s) && (k in s ==> c[k] == s[k])
    decreases |keys|
  {
    if keys == [] {
    } else {
      var k := keys[0];
      if k in s && Covers(m, k) {
        TargetFacts(m, k);
      }
      CopySafe(s0, s, m, k);
      RunCopySafe(s0, CopyKey(s, m, k), m, keys[1..]);
    }
  }

  lemma {:induction false} RunDropSafe(s0: Store, s: Store, m: Move, keys: seq<Path>)
    requires Apart(m.src, m.dst, m.isDir) && Safe(s0, s, m) && CopyComplete(s, s, m)
    ensures Safe(s0, RunDrop(s, m, keys), m)
    decreases |keys|
  {
    if keys == [] {
    } else {
      var k := keys[0];
      var d := DropKey(s, m, k);
      DropSafe(s0, s, m, k);
      forall o | o in d && Covers(m, o)
        ensures Target(m, o) in d && d[Target(m, o)] == d[o]
      {
        TargetFacts(m, o);
      }
      RunDropSafe(s0, d, m, keys[1..]);
    }
  }

  lemma MergeSafe(s0: Store, s: Store, m: Move, p: Provider)
    requires Apart(m.src, m.dst, m.isDir) && Safe(s0, s, m) && CopyComplete(s, RunCopy(s, m, p.copyKeys), m)
    ensures Safe(s0, RunDrop(RunCopy(s, m, p.copyKeys), m, p.dropKeys), m)
  {
    RunCopySafe(s0, s, m, p.copyKeys);
    var copied := RunCopy(s, m, p.copyKeys);
    assert CopyComplete(copied, copied, m);
    RunDropSafe(s0, copied, m, p.dropKeys);
  }

  lemma PassSafe(s0: Store, s: Store, m: Move, p: Provider)
    requires Apart(m.src, m.dst, m.isDir) && Safe(s0, s, m)
    ensures Safe(s0, Pass(s, m, p).0, m)
  {
    if Pass(s, m, p).0 == RunMove(s, m, p.moveSteps) {
      RunMoveSafe(s0, s, m, p.moveSteps);
    } else if Pass(s, m, p).0 == RunCopy(s, m, p.copyKeys) {
      RunCopySafe(s0, s, m, p.copyKeys);
    } else if CopyComplete(s, RunCopy(s, m, p.copyKeys), m) {
      MergeSafe(s0, s, m, p);
    }
  }

  function Run(s: Store, m: Move, ps: seq<Provider>): Store
    decreases |ps|
  {
    if ps == [] then s else Run(Pass(s, m, ps[0]).0, m, ps[1..])
  }

  lemma {:induction false} RunSafe(s0: Store, s: Store, m: Move, ps: seq<Provider>)
    requires Apart(m.src, m.dst, m.isDir) && Safe(s0, s, m)
    ensures Safe(s0, Run(s, m, ps), m)
    decreases |ps|
  {
    if ps == [] {
    } else {
      PassSafe(s0, s, m, ps[0]);
      RunSafe(s0, Pass(s, m, ps[0]).0, m, ps[1..]);
    }
  }

  /** Retries lose no data and converge. After any number of passes with any provider faults nothing at the
      source is lost and nothing else is touched; a pass that returns nil leaves the source empty with every
      original object at its renamed key; and the state-conflict row needs an empty source from the start. */
  lemma RetriesConverge(s0: Store, m: Move, ps: seq<Provider>, p: Provider)
    requires Apart(m.src, m.dst, m.isDir)
    ensures var s := Run(s0, m, ps);
            var (after, outcome) := Pass(s, m, p);
            && Safe(s0, s, m) && Safe(s0, after, m)
            && (outcome == Done ==>
                  && Sources(after, m) == {}
                  && forall k :: k in s0 && Covers(m, k) ==>
                       Target(m, k) in after && after[Target(m, k)] == s0[k])
            && (outcome in {Conflict, DestinationAbsent} ==> Sources(s0, m) == {})
  {
    RunSafe(s0, s0, m, ps);
    var s := Run(s0, m, ps);
    PassSafe(s0, s, m, p);
    var (after, outcome) := Pass(s, m, p);
    ProbeIsSources(s, m);
    ProbeIsSources(after, m);
    forall k | k in Sources(s0, m) && (outcome in {Conflict, DestinationAbsent})
      ensures false
    {
      TargetProbed(s, m, k);
      TargetProbed(after, m, k);
    }
  }

  lemma ProbeIsSources(s: Store, m: Move)
    ensures Probe(s, m.src, m.isDir) <==> Sources(s, m) != {}
  {
    if Probe(s, m.src, m.isDir) {
      var k :| k in s && Covers(m, k);
      assert k in Sources(s, m);
    } else {
      assert forall k :: k in s ==> !Covers(m, k);
    }
  }

  lemma TargetProbed(s: Store, m: Move, k: Path)
    requires Covers(m, k)
    ensures Target(m, k) in s ==> Probe(s, m.dst, m.isDir)
    ensures k in s ==> Probe(s, m.src, m.isDir)
  {
    var t := Target(m, k);
    assert t[..|m.dst|] == m.dst;
    assert m.isDir ==> m.dst < t;
    assert !m.isDir ==> t == m.dst;
  }

  /** The provider reports the branch that the pass takes as done, and it has emptied the source. */
  predicate Works(s: Store, m: Move, p: Provider) {
    if Probe(s, m.dst, m.isDir) then
      var copied := RunCopy(s, m, p.copyKeys);
      p.copyOk && CopyComplete(s, copied, m) && p.dropOk && Sources(RunDrop(copied, m, p.dropKeys), m) == {}
    else p.moveOk && Sources(RunMove(s, m, p.moveSteps), m) == {}
  }

  /** A pass of a move that had something to move returns nil exactly when no probe it makes fails and, unless the
      source is empty already, the branch it takes works. */
  lemma PassConvergesIff(s0: Store, s: Store, m: Move, p: Provider)
    requires Apart(m.src, m.dst, m.isDir) && Safe(s0, s, m) && Sources(s0, m) != {} && m.src != [] && m.dst != []
    ensures Pass(s, m, p).1 == Done <==>
              && !p.probeErrors.0 && !p.probeErrors.1
              && (Probe(s, m.src, m.isDir) ==> Works(s, m, p) && !p.probeErrors.2 && !p.probeErrors.3)
  {
    hide RunMove, RunCopy, RunDrop, CopyComplete, Probe;
    PassSafe(s0, s, m, p);
    var (after, outcome) := Pass(s, m, p);
    ProbeIsSources(s, m);
    ProbeIsSources(after, m);
    var k :| k in Sources(s0, m);
    TargetProbed(s, m, k);
    TargetProbed(after, m, k);
  }

  // ---------------------------------------------------------------- what one pass returns

  /** Each answer of a pass, by what the bucket holds before and after it. */
  lemma OutcomeTells(s: Store, m: Move, p: Provider)
    ensures var (after, outcome) := Pass(s, m, p);
            && (outcome == BadPaths <==> m.src == [] || m.dst == [])
            && (outcome == Conflict <==>
                  && m.src != [] && m.dst != [] && !p.probeErrors.0 && !p.probeErrors.1
                  && !Probe(s, m.src, m.isDir) && !Probe(s, m.dst, m.isDir))
            && (outcome == SourceLeft ==> Probe(s, m.src, m.isDir) && Probe(after, m.src, m.isDir))
            && (outcome == DestinationAbsent ==>
                  Probe(s, m.src, m.isDir) && !Probe(after, m.src, m.isDir) && !Probe(after, m.dst, m.isDir))
            && (outcome == Done ==> !Probe(after, m.src, m.isDir) && Probe(after, m.dst, m.isDir))
            && (!Probe(s, m.src, m.isDir) || outcome in {BadPaths, Conflict} ==> after == s)
  {
    hide RunMove, RunCopy, RunDrop, CopyComplete, Probe;
  }

  // ---------------------------------------------------------------- a pass without faults

  function MoveSteps(keys: seq<Path>): seq<Step> {
    if keys == [] then [] else [Copy(keys[0]), Drop(keys[0])] + MoveSteps(keys[1..])
  }

  /** A provider that sees to these objects and does not fail. */
  function Working(keys: seq<Path>): Provider {
    Provider(MoveSteps(keys), true, keys, true, keys, true, (false, false, false, false))
  }

  /** The bucket `t` is `s` with these source objects moved and nothing else changed. */
  ghost predicate Moved(s: Store, t: Store, m: Move, keys: set<Path>) {
    && (forall k :: Covers(m, k) ==> (k in t <==> k in s && k !in keys) && (k in t ==> t[k] == s[k]))
    && (forall k :: k in s && Covers(m, k) && k in keys ==> Target(m, k) in t && t[Target(m, k)] == s[k])
    && forall x :: !Covers(m, x) && !IsTarget(s, m, keys, x) ==> (x in t <==> x in s) && (x in t ==> t[x] == s[x])
  }

  ghost predicate IsTarget(s: Store, m: Move, keys: set<Path>, x: Path) {
    exists k :: k in keys && k in s && Covers(m, k) && Target(m, k) == x
  }

  function Members(keys: seq<Path>): set<Path> {
    set k | k in keys
  }

  lemma FirstMember(keys: seq<Path>)
    requires keys != []
    ensures Members(keys) == {keys[0]} + Members(keys[1..])
  {
    assert forall k :: k in keys <==> k == keys[0] || k in keys[1..];
  }

  lemma {:induction false} RunMoveMoves(s: Store, m: Move, keys: seq<Path>)
    requires Apart(m.src, m.dst, m.isDir)
    ensures Moved(s, RunMove(s, m, MoveSteps(keys)), m, Members(keys))
    decreases |keys|
  {
    if keys == [] {
    } else {
      var k, steps := keys[0], MoveSteps(keys);
      assert steps[1..][1..] == MoveSteps(keys[1..]) && steps[1..][0] == Drop(k);
      var s1 := DropMoved(CopyKey(s, m, k), m, k);
      FirstMember(keys);
      RunMoveMoves(s1, m, keys[1..]);
      MoveOne(s, m, k);
      MovedOn(s, s1, RunMove(s1, m, MoveSteps(keys[1..])), m, k, Members(keys[1..]));
    }
  }

  lemma MoveOne(s: Store, m: Move, k: Path)
    requires Apart(m.src, m.dst, m.isDir)
    ensures Moved(s, DropMoved(CopyKey(s, m, k), m, k), m, {k})
  {
    if k in s && Covers(m, k) {
      TargetFacts(m, k);
      assert IsTarget(s, m, {k}, Target(m, k));
    }
  }

  /** First one object, then others. */
  lemma MovedOn(s: Store, s1: Store, t: Store, m: Move, k: Path, rest: set<Path>)
    requires Apart(m.src, m.dst, m.isDir) && Moved(s, s1, m, {k}) && Moved(s1, t, m, rest)
    ensures Moved(s, t, m, {k} + rest)
  {
    forall o | o in s && Covers(m, o) && o in {k} + rest
      ensures Target(m, o) in t && t[Target(m, o)] == s[o]
    {
      TargetFacts(m, o);
      if o == k {
        assert !IsTarget(s1, m, rest, Target(m, k));
      }
    }
    forall x | !Covers(m, x) && !IsTarget(s, m, {k} + rest, x)
      ensures (x in t <==> x in s) && (x in t ==> t[x] == s[x])
    {
      assert !IsTarget(s, m, {k}, x);
      if o :| o in rest && o in s1 && Covers(m, o) && Target(m, o) == x {
        assert o in s;
      }
    }
  }

  /** What a copy of these objects makes. */
  ghost predicate Copied(s: Store, t: Store, m: Move, keys: set<Path>) {
    && (forall k :: k in s && Covers(m, k) && k in keys ==> Target(m, k) in t && t[Target(m, k)] == s[k])
    && forall x :: !IsTarget(s, m, keys, x) ==> (x in t <==> x in s) && (x in t ==> t[x] == s[x])
  }

  lemma {:induction false} RunCopyCopies(s: Store, m: Move, keys: seq<Path>)
    requires Apart(m.src, m.dst, m.isDir)
    ensures Copied(s, RunCopy(s, m, keys), m, Members(keys))
    decreases |keys|
  {
    if keys == [] {
    } else {
      var k := keys[0];
      var s1 := CopyKey(s, m, k);
      FirstMember(keys);
      RunCopyCopies(s1, m, keys[1..]);
      CopyOne(s, m, k);
      CopiedOn(s, s1, RunCopy(s1, m, keys[1..]), m, k, Members(keys[1..]));
    }
  }

  lemma CopyOne(s: Store, m: Move, k: Path)
    ensures Copied(s, CopyKey(s, m, k), m, {k})
  {
    if k in s && Covers(m, k) {
      assert IsTarget(s, m, {k}, Target(m, k));
    }
  }

  lemma CoveredIsNoTarget(s: Store, m: Move, keys: set<Path>, o: Path)
    requires Apart(m.src, m.dst, m.isDir) && Covers(m, o)
    ensures !IsTarget(s, m, keys, o)
  {
    if k :| k in keys && k in s && Covers(m, k) && Target(m, k) == o {
      TargetFacts(m, k);
    }
  }

  lemma CopiedOn(s: Store, s1: Store, t: Store, m: Move, k: Path, rest: set<Path>)
    requires Apart(m.src, m.dst, m.isDir) && Copied(s, s1, m, {k}) && Copied(s1, t, m, rest)
    ensures Copied(s, t, m, {k} + rest)
  {
    forall o | Covers(m, o)
      ensures (o in s1 <==> o in s) && (o in s ==> s1[o] == s[o])
    {
      CoveredIsNoTarget(s, m, {k}, o);
    }
    forall o | o in s && Covers(m, o) && o in {k} + rest
      ensures Target(m, o) in t && t[Target(m, o)] == s[o]
    {
      TargetFacts(m, o);
      if o == k && o !in rest {
        assert !IsTarget(s1, m, rest, Target(m, k));
      }
    }
    forall x | !IsTarget(s, m, {k} + rest, x)
      ensures (x in t <==> x in s) && (x in t ==> t[x] == s[x])
    {
      assert !IsTarget(s, m, {k}, x);
      if o :| o in rest && o in s1 && Covers(m, o) && Target(m, o) == x {
        assert o in s;
      }
    }
  }

  lemma {:induction false} RunDropDrops(s: Store, m: Move, keys: seq<Path>)
    ensures var t := RunDrop(s, m, keys);
            && (forall x :: x in t <==> x in s && !(Covers(m, x) && x in keys))
            && forall x :: x in t ==> t[x] == s[x]
    decreases |keys|
  {
    if keys == [] {
    } else {
      RunDropDrops(DropKey(s, m, keys[0]), m, keys[1..]);
      assert forall k :: k in keys <==> k == keys[0] || k in keys[1..];
    }
  }

  /** One pass whose provider does not fail moves every source object to its target, takes it from the source, leaves all
      else alone, and returns nil. */
  lemma WorkingPass(s: Store, m: Move, keys: seq<Path>)
    requires Apart(m.src, m.dst, m.isDir) && m.src != [] && m.dst != []
    requires Sources(s, m) != {} && Members(keys) == Sources(s, m)
    ensures var (after, outcome) := Pass(s, m, Working(keys)); outcome == Done && Moved(s, after, m, Members(keys))
  {
    hide RunMove, RunCopy, RunDrop, Probe;
    ProbeIsSources(s, m);
    if Probe(s, m.dst, m.isDir) {
      var copied := RunCopy(s, m, keys);
      RunCopyCopies(s, m, keys);
      RunDropDrops(copied, m, keys);
      MergedAll(s, copied, RunDrop(copied, m, keys), m, keys);
      MovedDone(s, RunDrop(copied, m, keys), m, keys);
    } else {
      RunMoveMoves(s, m, keys);
      MovedDone(s, RunMove(s, m, MoveSteps(keys)), m, keys);
    }
  }

  lemma MergedAll(s: Store, copied: Store, t: Store, m: Move, keys: seq<Path>)
    requires Apart(m.src, m.dst, m.isDir) && Members(keys) == Sources(s, m) && Copied(s, copied, m, Members(keys))
    requires forall x :: x in t <==> x in copied && !(Covers(m, x) && x in keys)
    requires forall x :: x in t ==> t[x] == copied[x]
    ensures CopyComplete(s, copied, m) && Moved(s, t, m, Members(keys))
  {
    forall o | Covers(m, o)
      ensures (o in copied <==> o in s) && (o in s ==> copied[o] == s[o])
    {
      CoveredIsNoTarget(s, m, Members(keys), o);
    }
    forall o | o in s && Covers(m, o)
      ensures Target(m, o) in copied && copied[Target(m, o)] == s[o] && !Covers(m, Target(m, o))
    {
      assert o in Sources(s, m);
      TargetFacts(m, o);
    }
    assert forall k :: k in keys <==> k in Members(keys);
  }

  lemma MovedDone(s: Store, t: Store, m: Move, keys: seq<Path>)
    requires Apart(m.src, m.dst, m.isDir) && Sources(s, m) != {} && Members(keys) == Sources(s, m)
    requires Moved(s, t, m, Members(keys))
    ensures !Probe(t, m.src, m.isDir) && Probe(t, m.dst, m.isDir)
  {
    ProbeIsSources(t, m);
    assert Sources(t, m) == {};
    var k :| k in Sources(s, m);
    TargetProbed(t, m, k);
  }

  ghost function Listed(keys: set<Path>): (r: seq<Path>)
    ensures Members(r) == keys
  {
    if keys == {} then []
    else
      var k :| k in keys;
      var rest := Listed(keys - {k});
      assert ([k] + rest)[1..] == rest;
      FirstMember([k] + rest);
      [k] + rest
  }

  /** So retries end: after any number of passes with any faults, one without faults returns nil, and every object that
      was at the source at first is at its target and nowhere else. */
  lemma FaultlessPassEnds(s0: Store, m: Move, ps: seq<Provider>)
    requires Apart(m.src, m.dst, m.isDir) && m.src != [] && m.dst != [] && Sources(s0, m) != {}
    ensures var s := Run(s0, m, ps);
            var (after, outcome) := Pass(s, m, Working(Listed(Sources(s, m))));
            && outcome == Done && Sources(after, m) == {}
            && forall k :: k in s0 && Covers(m, k) ==> Target(m, k) in after && after[Target(m, k)] == s0[k]
  {
    hide Moved, Safe, Probe;
    var s := Run(s0, m, ps);
    var p := Working(Listed(Sources(s, m)));
    RunSafe(s0, s0, m, ps) by {
      SafeAtFirst(s0, m);
    }
    PassConvergesIff(s0, s, m, p);
    RetriesConverge(s0, m, ps, p);
    if Sources(s, m) != {} {
      WorkingPass(s, m, Listed(Sources(s, m)));
    } else {
      ProbeIsSources(s, m);
    }
  }

  lemma SafeAtFirst(s: Store, m: Move)
    ensures Safe(s, s, m)
  {
  }

  // ---------------------------------------------------------------- exactly when retries are safe

  /** A run that wipes the only object of an overlapping move: copy onto itself, then hard-delete the source. */
  lemma OverlapLoses(m: Move) returns (s: Store, p: Provider)
    requires m.src != [] && m.dst != [] && !Apart(m.src, m.dst, m.isDir)
    ensures !Readable(s, Run(s, m, [p]), m)
  {
    var k := if !m.isDir then m.src else if m.src <= m.dst then m.dst + [""] else m.src + m.src[|m.dst|..] + [""];
    s := map[k := "bytes"];
    assert m.isDir ==> m.src < k && m.dst < k;
    var t := Target(m, k);
    assert Covers(m, t) by {
      if m.isDir {
        if m.src <= m.dst {
          assert t[..|m.src|] == m.dst[..|m.src|] == m.src;
        } else {
          assert m.dst + m.src[|m.dst|..] == m.src;
          assert k[|m.src|..] == m.src[|m.dst|..] + [""];
          assert t == m.src + [""];
        }
      }
    }
    p := Provider([], true, [k], true, [k, t], true, (false, false, false, false));
    var copied := s[t := "bytes"];
    var one: seq<Path>, two: seq<Path> := [k], [k, t];
    assert |one[1..]| == 0 && two[1..] == [t] && |two[1..][1..]| == 0;
    assert RunCopy(s, m, [k]) == copied;
    assert RunDrop(copied, m, two) == RunDrop(copied - {k}, m, two[1..]) == RunDrop(copied - {k} - {t}, m, two[1..][1..]);
    assert copied - {k} - {t} == map[];
    assert Probe(s, m.src, m.isDir) && Probe(s, m.dst, m.isDir);
    assert Pass(s, m, p).0 == map[];
    var ps: seq<Provider> := [p];
    assert |ps[1..]| == 0 && Run(s, m, ps) == map[];
    assert k in s && Covers(m, k);
  }

  /** Retries keep every object readable, for every bucket and provider, exactly when source and destination do
      not overlap. A caller can check that before it queues the move; reconcileRemoteMove does not. */
  lemma SafeIffApart(m: Move)
    requires m.src != [] && m.dst != []
    ensures (forall s, ps :: Readable(s, Run(s, m, ps), m)) <==> Apart(m.src, m.dst, m.isDir)
  {
    if Apart(m.src, m.dst, m.isDir) {
      forall s, ps
        ensures Readable(s, Run(s, m, ps), m)
      {
        RunSafe(s, s, m, ps);
      }
    } else {
      var s, p := OverlapLoses(m);
      assert !Readable(s, Run(s, m, [p]), m);
    }
  }
}
