/** Single runs of the delete protocol that show where its conditions come from. */
module DeleteTraces {
  import opened DeleteProtocol
  import opened DeleteQueue
  import opened VirtualPaths
  import opened Wrappers

  // ---------------------------------------------------------------- what a replayed rebase can do

  /** A queue with one pending file delete, and the same delete after a rebase of its path. */
  function OnePending(p: Path): Queue {
    Queue(map[p := 0], {}, map[0 := Task(p, false, false, false)], false)
  }

  lemma OneRebased(p: Path, dst: Path)
    requires p != [] && dst != [] && p != dst
    ensures Rebased(OnePending(p), p, dst, false) == OnePending(dst)
  {
    hide Rekey;
    var q, keys := OnePending(p), {p};
    assert Rebase(p, p, dst) == dst;
    assert q.entries.Keys == keys && Carried(keys, keys, p, dst, false) == {p};
    assert Dropped(keys, keys, p, dst, false) == {};
    forall t
      ensures t in EntriesAt(q, keys, p, dst, false) <==> t == dst
      ensures t == dst ==> EntriesAt(q, keys, p, dst, false)[t] == 0
    {
      RekeyAt(q.entries, {p}, {}, p, dst, false, t);
      assert Rebase(dst, dst, p) == p;
    }
    assert EntriesAt(q, keys, p, dst, false) == map[dst := 0];
    assert TasksAt(q, keys, p, dst, false) == map[0 := Task(dst, false, false, false)];
  }

  /** The file `p` was deleted before `moves` and `rebases` were made, and its delete is pending at the path `now`. */
  function OneDelete(p: Path, now: Path, moves: seq<Rename>, rebases: seq<Rename>): World {
    World(OnePending(now), 1, None, Free, moves, rebases, map[0 := p], map[0 := Time(0, 0)],
          map[0 := Kind(false, false)], map[])
  }

  function Deletes(p: Path): seq<Action> {
    [DeletePath(p, false, false)]
  }

  function Retries(r: Rename): seq<Action> {
    [ReplayRebase(r)]
  }

  const CALLS: seq<Action> := [ClaimEntry(0), StartCall(0)]

  lemma AfterDelete(p: Path)
    requires p != []
    ensures Run(INIT, Deletes(p)) == OneDelete(p, p, [], []) && Shape(OneDelete(p, p, [], []))
  {
    RunOne(INIT, DeletePath(p, false, false));
  }

  lemma ReplayStep(w: World, r: Rename)
    requires Shape(w) && w.renaming.None? && w.holder.Free? && Proper(r)
    ensures Step(w, ReplayRebase(r)) == w.(queue := RebasedBy(w.queue, r), rebases := w.rebases + [r])
  {
    hide Shape, Proper, RebasedBy;
  }

  lemma AfterReplay(p: Path, dst: Path, moves: seq<Rename>)
    requires p != [] && dst != [] && p != dst && Shape(OneDelete(p, p, moves, []))
    ensures var r := Rename(p, dst, false);
            && Run(OneDelete(p, p, moves, []), Retries(r)) == OneDelete(p, dst, moves, [r])
            && Shape(OneDelete(p, dst, moves, [r]))
  {
    OneRebased(p, dst);
    hide Step, Shape, Rebased, Run;
    RunOne(OneDelete(p, p, moves, []), ReplayRebase(Rename(p, dst, false)));
    ReplayStep(OneDelete(p, p, moves, []), Rename(p, dst, false));
  }

  lemma AfterCall(p: Path, now: Path, moves: seq<Rename>, rebases: seq<Rename>)
    requires Shape(OneDelete(p, now, moves, rebases))
    ensures var w := Run(OneDelete(p, now, moves, rebases), CALLS);
            && 0 in w.calls && w.calls[0].target == now && w.origin[0] == p && w.moves == moves
            && (Hit(w, 0) <==> now == Rewrite(p, moves))
  {
    var rest := [StartCall(0)];
    assert [ClaimEntry(0), StartCall(0)][1..] == rest && rest[1..] == [];
    var w1 := Step(OneDelete(p, now, moves, rebases), ClaimEntry(0));
    assert Enabled(w1, StartCall(0));
    var w2 := Step(w1, StartCall(0));
    assert Run(w1, rest) == Run(w2, []) == w2;
    assert moves[0..|moves|] == moves;
  }

  lemma {:induction false} RunConcat(w: World, a: seq<Action>, b: seq<Action>)
    requires Shape(w)
    ensures Run(w, a + b) == Run(Run(w, a), b)
    decreases |a|
  {
    hide Step, Shape;
    if a == [] {
      assert a + b == b;
    } else {
      assert (a + b)[0] == a[0] && (a + b)[1..] == a[1..] + b;
      RunConcat(Step(w, a[0]), a[1..], b);
    }
  }

  lemma RunOne(w: World, a: Action)
    requires Shape(w)
    ensures Run(w, [a]) == Step(w, a)
  {
    hide Step, Shape;
    assert [a][1..] == [];
  }

  lemma InitShape()
    ensures Shape(INIT)
  {
  }

  lemma RunThree(w: World, a: seq<Action>, b: seq<Action>, c: seq<Action>)
    requires Shape(w)
    ensures Run(w, a + b + c) == Run(Run(Run(w, a), b), c)
  {
    hide Run, Shape;
    RunConcat(w, a, b);
    RunConcat(w, a + b, c);
  }

  lemma RewriteOne(p: Path, r: Rename)
    ensures Rewrite(p, []) == p && Rewrite(p, [r]) == Renamed(p, r.src, r.dst, r.isDir)
    ensures r == Rename(p, r.dst, false) ==> Rewrite(p, [r]) == r.dst
  {
    RewriteSnoc(p, [], r);
    assert [] + [r] == [r];
  }

  /** A file is deleted, a retry of an old rename of its path is replayed without a move, and the provider delete hits
      the new path, although no move was made. */
  lemma ReplayMisdirects(p: Path, dst: Path)
    requires p != [] && dst != [] && p != dst
    ensures var w := Run(INIT, Deletes(p) + Retries(Rename(p, dst, false)) + CALLS);
            0 in w.calls && w.calls[0].target == dst && w.origin[0] == p && w.moves == [] && !Hit(w, 0)
  {
    hide OneDelete, Shape, Run, Deletes, Retries, Rewrite;
    InitShape();
    AfterDelete(p);
    AfterReplay(p, dst, []);
    AfterCall(p, dst, [], [Rename(p, dst, false)]);
    RewriteOne(p, Rename(p, dst, false));
    RunThree(INIT, Deletes(p), Retries(Rename(p, dst, false)), CALLS);
  }

  /** A rename whose provider move takes effect and is reported as failed. */
  function LostReport(r: Rename): seq<Action> {
    [BeginRename(r), LockMutation, MoveUnreported]
  }

  /** Up to the provider move of a rename. */
  lemma UpToMove(w: World, r: Rename)
    requires Shape(w) && w.renaming.None? && w.holder.Free? && Proper(r)
    ensures Run(w, [BeginRename(r), LockMutation]) == w.(renaming := Some(r), holder := Moving(r))
  {
    hide Shape, Proper;
    assert [BeginRename(r), LockMutation] == [BeginRename(r)] + [LockMutation];
    RunConcat(w, [BeginRename(r)], [LockMutation]);
    RunOne(w, BeginRename(r));
    RunOne(Step(w, BeginRename(r)), LockMutation);
  }

  lemma MoveLost(w: World, r: Rename)
    requires Shape(w) && w.holder == Moving(r)
    ensures Step(w, MoveUnreported) == w.(moves := w.moves + [r], holder := Free, renaming := None)
  {
    hide Shape;
  }

  lemma AfterLostReport(p: Path, dst: Path)
    requires p != [] && dst != [] && p != dst && Shape(OneDelete(p, p, [], []))
    ensures var r := Rename(p, dst, false);
            && Run(OneDelete(p, p, [], []), LostReport(r)) == OneDelete(p, p, [r], [])
            && Shape(OneDelete(p, p, [r], []))
  {
    var r := Rename(p, dst, false);
    var w := OneDelete(p, p, [], []);
    UpToMove(w, r);
    hide Step, Run, Shape, Proper;
    assert LostReport(r) == [BeginRename(r), LockMutation] + [MoveUnreported];
    RunConcat(w, [BeginRename(r), LockMutation], [MoveUnreported]);
    var w2 := w.(renaming := Some(r), holder := Moving(r));
    RunOne(w2, MoveUnreported);
    MoveLost(w2, r);
  }

  lemma AfterLost(p: Path, dst: Path)
    requires p != [] && dst != [] && p != dst
    ensures var r := Rename(p, dst, false);
            && Run(INIT, Deletes(p) + LostReport(r)) == OneDelete(p, p, [r], [])
            && Shape(OneDelete(p, p, [r], []))
  {
    var r := Rename(p, dst, false);
    hide OneDelete, Shape, Run, LostReport, Deletes;
    InitShape();
    AfterDelete(p);
    AfterLostReport(p, dst);
    RunConcat(INIT, Deletes(p), LostReport(r));
  }

  /** The retry of such a rename brings a pending delete back on its way. */
  lemma LateRebaseCatchesUp(p: Path, dst: Path)
    requires p != [] && dst != [] && p != dst
    ensures var r := Rename(p, dst, false);
            var w := Run(INIT, Deletes(p) + LostReport(r) + Retries(r) + CALLS);
            0 in w.calls && w.calls[0].target == dst && w.origin[0] == p && w.moves == [r] && Hit(w, 0)
  {
    var r := Rename(p, dst, false);
    hide OneDelete, Shape, Run, LostReport, Deletes, Retries, Rewrite;
    InitShape();
    AfterLost(p, dst);
    AfterReplay(p, dst, [r]);
    AfterCall(p, dst, [r], [r]);
    RewriteOne(p, r);
    RunThree(INIT, Deletes(p) + LostReport(r), Retries(r), CALLS);
  }

  /** A delete that starts before it misses the moved file. */
  lemma LateDeleteMisses(p: Path, dst: Path)
    requires p != [] && dst != [] && p != dst
    ensures var r := Rename(p, dst, false);
            var w := Run(INIT, Deletes(p) + LostReport(r) + CALLS);
            0 in w.calls && w.calls[0].target == p && w.origin[0] == p && w.moves == [r] && !Hit(w, 0)
  {
    var r := Rename(p, dst, false);
    hide OneDelete, Shape, Run, LostReport, Deletes, Rewrite;
    InitShape();
    AfterLost(p, dst);
    AfterCall(p, p, [r], []);
    RewriteOne(p, r);
    RunConcat(INIT, Deletes(p) + LostReport(r), CALLS);
  }

  // ---------------------------------------------------------------- a delete pending at the target of a rename

  lemma OneKept(p: Path, src: Path)
    requires p != [] && src != [] && p != src
    ensures Rebased(OnePending(p), src, p, false) == OnePending(p)
  {
    hide Rekey;
    var q, keys := OnePending(p), {p};
    assert q.entries.Keys == keys && Carried(keys, keys, src, p, false) == {} == Dropped(keys, keys, src, p, false);
    forall t
      ensures t in EntriesAt(q, keys, src, p, false) <==> t == p
      ensures t == p ==> EntriesAt(q, keys, src, p, false)[t] == 0
    {
      RekeyAt(q.entries, {}, {}, src, p, false, t);
    }
    assert EntriesAt(q, keys, src, p, false) == map[p := 0];
    assert TasksAt(q, keys, src, p, false) == map[0 := Task(p, false, false, false)];
  }

  function PlainRename(r: Rename): seq<Action> {
    [BeginRename(r), LockMutation, MoveSucceeds, RebaseDeletes]
  }

  lemma MoveMade(w: World, r: Rename)
    requires Shape(w) && w.holder == Moving(r)
    ensures Step(w, MoveSucceeds) == w.(holder := HasMoved(r), moves := w.moves + [r])
  {
    hide Shape;
  }

  lemma RebaseMade(w: World, r: Rename)
    requires Shape(w) && w.holder == HasMoved(r) && Proper(r)
    ensures Step(w, RebaseDeletes)
         == w.(queue := RebasedBy(w.queue, r), rebases := w.rebases + [r], holder := Free, renaming := None)
  {
    hide Shape, RebasedBy, Proper;
  }

  lemma MoveAndRebase(w: World, r: Rename)
    requires Shape(w) && w.holder == Moving(r) && Proper(r)
    ensures Run(w, [MoveSucceeds, RebaseDeletes])
         == w.(queue := RebasedBy(w.queue, r), moves := w.moves + [r], rebases := w.rebases + [r], holder := Free,
               renaming := None)
  {
    hide RebasedBy, Proper, Step, Shape, Run;
    assert [MoveSucceeds, RebaseDeletes] == [MoveSucceeds] + [RebaseDeletes];
    MoveMade(w, r);
    RunConcat(w, [MoveSucceeds], [RebaseDeletes]);
    RunOne(w, MoveSucceeds);
    RunOne(Step(w, MoveSucceeds), RebaseDeletes);
    RebaseMade(Step(w, MoveSucceeds), r);
  }

  lemma PlainRun(w: World, r: Rename)
    requires Shape(w) && w.renaming.None? && w.holder.Free? && Proper(r) && RebasedBy(w.queue, r) == w.queue
    ensures Run(w, PlainRename(r)) == w.(moves := w.moves + [r], rebases := w.rebases + [r])
  {
    hide Step, Run, Shape, RebasedBy, Proper;
    UpToMove(w, r);
    assert PlainRename(r) == [BeginRename(r), LockMutation] + [MoveSucceeds, RebaseDeletes];
    RunConcat(w, [BeginRename(r), LockMutation], [MoveSucceeds, RebaseDeletes]);
    MoveAndRebase(w.(renaming := Some(r), holder := Moving(r)), r);
  }

  /** A rename onto the path of the pending delete. */
  lemma AfterRename(p: Path, src: Path, moves: seq<Rename>, rebases: seq<Rename>)
    requires p != [] && src != [] && p != src && Shape(OneDelete(p, p, moves, rebases))
    ensures var r := Rename(src, p, false);
            && Run(OneDelete(p, p, moves, rebases), PlainRename(r)) == OneDelete(p, p, moves + [r], rebases + [r])
            && Shape(OneDelete(p, p, moves + [r], rebases + [r]))
  {
    var r := Rename(src, p, false);
    var w := OneDelete(p, p, moves, rebases);
    OneKept(p, src);
    assert Proper(r) && RebasedBy(w.queue, r) == w.queue;
    hide Run, Shape, RebasedBy, Proper, Rebased;
    PlainRun(w, r);
  }

  /** Nothing takes back a pending delete when a rename makes its path the place of another file: the provider delete
      then hits the file that has been moved there. */
  lemma DeleteHitsMoved(p: Path, src: Path)
    requires p != [] && src != [] && p != src
    ensures var r := Rename(src, p, false);
            var w := Run(INIT, Deletes(p) + PlainRename(r) + CALLS);
            0 in w.calls && w.moves == [r] && w.calls[0].target == p == Rewrite(src, w.moves)
  {
    var r := Rename(src, p, false);
    RewriteOne(src, r);
    assert [] + [r] == [r];
    hide OneDelete, Shape, Run, PlainRename, Rewrite, Deletes;
    InitShape();
    AfterDelete(p);
    AfterRename(p, src, [], []);
    AfterCall(p, p, [r], [r]);
    RunThree(INIT, Deletes(p), PlainRename(r), CALLS);
  }

  /** A delete that a move without a report has left behind hits its file all the same once a plain rename has moved
      the file back, and no retry has been made. */
  lemma MovedBackHits(p: Path, dst: Path)
    requires p != [] && dst != [] && p != dst
    ensures var r, back := Rename(p, dst, false), Rename(dst, p, false);
            var w := Run(INIT, Deletes(p) + LostReport(r) + PlainRename(back) + CALLS);
            0 in w.calls && w.calls[0].target == p && w.moves == [r, back] && Hit(w, 0)
  {
    var r, back := Rename(p, dst, false), Rename(dst, p, false);
    RewriteOne(p, r);
    RewriteSnoc(p, [r], back);
    RewriteOne(dst, back);
    assert [r] + [back] == [r, back] && [] + [back] == [back];
    hide OneDelete, Shape, Run, LostReport, PlainRename, Rewrite, Deletes;
    InitShape();
    AfterLost(p, dst);
    AfterRename(p, dst, [r], []);
    AfterCall(p, p, [r, back], [back]);
    RunThree(INIT, Deletes(p) + LostReport(r), PlainRename(back), CALLS);
  }
}
