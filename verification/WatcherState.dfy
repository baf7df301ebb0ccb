/** What the Windows watcher remembers about paths: pending and completed renames, and per-path facts. */
module WatcherState {
  import opened VirtualPaths
  import opened Wrappers

  const EVENT_IGNORE_TTL := 3_000_000_000
  const RENAME_DEDUPE_TTL := 60_000_000_000

  datatype Observed = Observed(size: int, modTime: int)

  /** The source of a rename whose target has yet to appear. */
  datatype Pending = Pending(observed: Observed, until: int)

  /** A physical rename; the source joins the two paths to one key. */
  datatype Pair = Pair(src: Path, dst: Path)

  /** A pending source that could have become `target`. */
  predicate Fits(pending: map<Path, Pending>, p: Path, target: Path, want: Observed) {
    p in pending && p != target && Parent(p) == Parent(target) && pending[p].observed == want
  }

  function Candidates(pending: map<Path, Pending>, among: set<Path>, target: Path, want: Observed): set<Path> {
    set p | p in among && Fits(pending, p, target, want)
  }

  /** The entries of a path map at or below `src`, moved below `dst`; all others as they were unless overwritten. */
  function RebasedMap<T>(m: map<Path, T>, src: Path, dst: Path): map<Path, T> {
    Rekey(m, AtOrBelow(m.Keys, src), {}, src, dst)
  }

  function AtOrBelow(keys: set<Path>, src: Path): set<Path> {
    set k | k in keys && Matches(k, src, true)
  }

  /** Two loops: collect and delete the covered entries, then write the collected ones. */
  method RebaseMap<T>(m: map<Path, T>, src: Path, dst: Path) returns (r: map<Path, T>, carried: bool)
    ensures r == RebasedMap(m, src, dst) && (carried <==> AtOrBelow(m.Keys, src) != {})
  {
    hide RebasedMap, AtOrBelow, Collected, Uncovered;
    var updates: map<Path, T> := map[];
    r := m;
    var todo := m.Keys;
    ghost var done: set<Path> := {};
    NoneCollected(m, src, dst);
    while todo != {}
      invariant done !! todo && done + todo == m.Keys
      invariant r == Uncovered(m, done, src) && updates == Collected(m, done, src, dst)
      decreases |todo|
    {
      var current :| current in todo;
      CollectOne(m, done, src, dst, current);
      if Matches(current, src, true) {
        updates := updates[Rebase(current, src, dst) := m[current]];
        r := r - {current};
      }
      todo, done := todo - {current}, done + {current};
    }
    assert done == m.Keys;
    CollectedAll(m, src, dst);
    carried := updates != map[];
    r := r + updates;
  }

  function Uncovered<T>(m: map<Path, T>, done: set<Path>, src: Path): map<Path, T> {
    map k | k in m && k !in AtOrBelow(done, src) :: m[k]
  }

  lemma NoneCollected<T>(m: map<Path, T>, src: Path, dst: Path)
    ensures Collected(m, {}, src, dst) == map[] && Uncovered(m, {}, src) == m
  {
  }

  function Collected<T>(m: map<Path, T>, done: set<Path>, src: Path, dst: Path): map<Path, T> {
    map t | t in Targets(AtOrBelow(done, src), src, dst) && dst <= t && Rebase(t, dst, src) in m
      :: m[Rebase(t, dst, src)]
  }

  lemma TargetSource(k: Path, src: Path, dst: Path)
    requires src <= k
    ensures dst <= Rebase(k, src, dst) && Rebase(Rebase(k, src, dst), dst, src) == k
  {
    assert Rebase(k, src, dst)[|dst|..] == k[|src|..];
    assert src + k[|src|..] == k;
  }

  lemma CollectOne<T>(m: map<Path, T>, done: set<Path>, src: Path, dst: Path, k: Path)
    requires done <= m.Keys && k in m && k !in done
    ensures Collected(m, done + {k}, src, dst)
         == if Matches(k, src, true) then Collected(m, done, src, dst)[Rebase(k, src, dst) := m[k]]
            else Collected(m, done, src, dst)
    ensures Uncovered(m, done + {k}, src)
         == if Matches(k, src, true) then Uncovered(m, done, src) - {k} else Uncovered(m, done, src)
  {
    if Matches(k, src, true) {
      TargetSource(k, src, dst);
      assert AtOrBelow(done + {k}, src) == AtOrBelow(done, src) + {k};
      assert Targets(AtOrBelow(done + {k}, src), src, dst)
          == Targets(AtOrBelow(done, src), src, dst) + {Rebase(k, src, dst)};
    } else {
      assert AtOrBelow(done + {k}, src) == AtOrBelow(done, src);
    }
  }

  lemma CollectedAll<T>(m: map<Path, T>, src: Path, dst: Path)
    ensures Collected(m, m.Keys, src, dst) == map[] <==> AtOrBelow(m.Keys, src) == {}
    ensures Uncovered(m, m.Keys, src) + Collected(m, m.Keys, src, dst) == RebasedMap(m, src, dst)
  {
    if k :| k in AtOrBelow(m.Keys, src) {
      TargetSource(k, src, dst);
      assert Rebase(k, src, dst) in Collected(m, m.Keys, src, dst);
    }
  }

  /** After a rebase nothing is left at or below the source, each target reads what its source read, and what is
      neither below the source nor such a target is unchanged. */
  lemma RebasedMapAt<T>(m: map<Path, T>, src: Path, dst: Path, k: Path)
    requires Incomparable(src, dst)
    ensures var r := RebasedMap(m, src, dst);
            && (Matches(k, src, true) ==> k !in r)
            && (Matches(k, src, true) && k in m ==> Rebase(k, src, dst) in r && r[Rebase(k, src, dst)] == m[k])
            && (!Matches(k, src, true) && k in m && !(Matches(k, dst, true) && Rebase(k, dst, src) in m) ==>
                  k in r && r[k] == m[k])
  {
    var moved := AtOrBelow(m.Keys, src);
    RekeyAt(m, moved, {}, src, dst, true, k);
    if Matches(k, src, true) {
      RebaseInverse(k, src, dst, true);
      RekeyAt(m, moved, {}, src, dst, true, Rebase(k, src, dst));
    }
  }

  lemma CandidateOne(pending: map<Path, Pending>, done: set<Path>, target: Path, want: Observed, p: Path)
    requires p in pending && p !in done
    ensures var before, after := Candidates(pending, done, target, want), Candidates(pending, done + {p}, target, want);
            && before <= after && |after| == |before| + (if Fits(pending, p, target, want) then 1 else 0)
            && (Fits(pending, p, target, want) ==> p in after)
  {
    assert Candidates(pending, done + {p}, target, want)
        == Candidates(pending, done, target, want) + (if Fits(pending, p, target, want) then {p} else {});
  }

  lemma NoCandidates(pending: map<Path, Pending>, target: Path, want: Observed)
    ensures Candidates(pending, {}, target, want) == {}
  {
  }

  lemma Single<T(!new)>(s: set<T>)
    ensures forall x :: s == {x} <==> |s| == 1 && x in s
  {
    forall x
      ensures s == {x} <==> |s| == 1 && x in s
    {
      if |s| == 1 && x in s {
        assert |s - {x}| == 0;
      }
    }
  }

  // ---------------------------------------------------------------- the state and its operations

  datatype Facts = Facts(
    pendingRenames: map<Path, Pending>,
    completedRenames: map<Pair, int>,
    kinds: map<Path, bool>,
    files: map<Path, Observed>,
    placeholders: map<Path, bool>,
    projected: map<Path, bool>,
    hydrating: map<Path, bool>)

  const NOTHING := Facts(map[], map[], map[], map[], map[], map[], map[])

  /** Every fact at or below the path is dropped; the completed renames are not. */
  function Forgotten(s: Facts, path: Path): Facts {
    Facts(Without(s.pendingRenames, path, true), s.completedRenames, Without(s.kinds, path, true),
          Without(s.files, path, true), Without(s.placeholders, path, true), Without(s.projected, path, true),
          Without(s.hydrating, path, true))
  }

  /** A rename carries every fact along, except that pending sources below it are dropped; a path without a known
      kind gets the kind of the rename. */
  function RebasedFacts(s: Facts, src: Path, dst: Path, isDir: bool): Facts {
    Facts(Without(s.pendingRenames, src, true), s.completedRenames,
          if AtOrBelow(s.kinds.Keys, src) == {} then s.kinds[dst := isDir] else RebasedMap(s.kinds, src, dst),
          RebasedMap(s.files, src, dst), RebasedMap(s.placeholders, src, dst), RebasedMap(s.projected, src, dst),
          RebasedMap(s.hydrating, src, dst))
  }

  predicate Under(k: Path, roots: set<Path>) {
    exists root :: root in roots && Matches(k, root, true)
  }

  function Outside<T>(m: map<Path, T>, roots: set<Path>): map<Path, T> {
    map k | k in m && !Under(k, roots) :: m[k]
  }

  function OutsideFacts(s: Facts, roots: set<Path>): Facts {
    s.(pendingRenames := Outside(s.pendingRenames, roots), kinds := Outside(s.kinds, roots),
       files := Outside(s.files, roots), placeholders := Outside(s.placeholders, roots),
       projected := Outside(s.projected, roots), hydrating := Outside(s.hydrating, roots))
  }

  function Expired(pending: map<Path, Pending>, now: int): set<Path> {
    set k | k in pending && now > pending[k].until
  }

  function Unexpired(completed: map<Pair, int>, now: int): map<Pair, int> {
    map pair | pair in completed && now <= completed[pair] :: completed[pair]
  }

  /** A source whose target never came is forgotten with everything below it, other sources included. */
  function Pruned(s: Facts, now: int): Facts {
    OutsideFacts(s, Expired(s.pendingRenames, now)).(completedRenames := Unexpired(s.completedRenames, now))
  }

  /** Forgetting one root after others. */
  lemma ForgetOne<T>(m: map<Path, T>, roots: set<Path>, root: Path)
    ensures Without(Outside(m, roots), root, true) == Outside(m, roots + {root})
  {
    assert forall k :: Under(k, roots + {root}) <==> Under(k, roots) || Matches(k, root, true);
  }

  lemma ForgetOneFact(s: Facts, roots: set<Path>, root: Path)
    ensures Forgotten(OutsideFacts(s, roots), root) == OutsideFacts(s, roots + {root})
  {
    hide Outside, Without;
    ForgetOne(s.pendingRenames, roots, root);
    ForgetOne(s.kinds, roots, root);
    ForgetOne(s.files, roots, root);
    ForgetOne(s.placeholders, roots, root);
    ForgetOne(s.projected, roots, root);
    ForgetOne(s.hydrating, roots, root);
  }

  /** A root that lies under another one adds nothing. */
  lemma SameRoots<T>(m: map<Path, T>, roots: set<Path>, all: set<Path>)
    requires roots <= all && forall k :: k in all ==> Under(k, roots)
    ensures Outside(m, roots) == Outside(m, all)
  {
    forall k | k in m
      ensures Under(k, roots) <==> Under(k, all)
    {
      if Under(k, all) {
        var b :| b in all && Matches(k, b, true);
        var a :| a in roots && Matches(b, a, true);
        PrefixTransitive(a, b, k);
      }
    }
  }

  lemma SameRootFacts(s: Facts, roots: set<Path>, all: set<Path>)
    requires roots <= all && forall k :: k in all ==> Under(k, roots)
    ensures OutsideFacts(s, roots) == OutsideFacts(s, all)
  {
    hide Outside;
    SameRoots(s.pendingRenames, roots, all);
    SameRoots(s.kinds, roots, all);
    SameRoots(s.files, roots, all);
    SameRoots(s.placeholders, roots, all);
    SameRoots(s.projected, roots, all);
    SameRoots(s.hydrating, roots, all);
  }

  lemma NoRoots(s: Facts)
    ensures OutsideFacts(s, {}) == s
  {
  }

  function Handled(s: Facts, pair: Pair, now: int): Facts {
    s.(completedRenames := s.completedRenames[pair := now + RENAME_DEDUPE_TTL])
  }

  /** What beginPendingFileRename does. */
  ghost predicate Begun(s: Facts, t: Facts, path: Path, now: int, ok: bool) {
    var pruned := Pruned(s, now);
    && (ok <==> path in pruned.files && !(path in pruned.kinds && pruned.kinds[path]))
    && t == if !ok then pruned
            else pruned.(pendingRenames := pruned.pendingRenames[path := Pending(pruned.files[path],
                                                                                 now + EVENT_IGNORE_TTL)])
  }

  /** What claimPendingFileRename does. */
  ghost predicate Claimed(s: Facts, t: Facts, target: Path, want: Observed, now: int, source: Option<Path>) {
    var pruned := Pruned(s, now);
    && (forall p :: source == Some(p) <==>
          Candidates(pruned.pendingRenames, pruned.pendingRenames.Keys, target, want) == {p})
    && t == if source.None? then pruned else pruned.(pendingRenames := pruned.pendingRenames - {source.value})
  }

  class WindowsPathState {
    var pendingRenames: map<Path, Pending>
    var completedRenames: map<Pair, int>
    var kinds: map<Path, bool>
    var files: map<Path, Observed>
    var placeholders: map<Path, bool>
    var projected: map<Path, bool>
    var hydrating: map<Path, bool>

    ghost function State(): Facts
      reads this
    {
      Facts(pendingRenames, completedRenames, kinds, files, placeholders, projected, hydrating)
    }

    constructor ()
      ensures State() == NOTHING
    {
      pendingRenames, completedRenames, kinds, files := map[], map[], map[], map[];
      placeholders, projected, hydrating := map[], map[], map[];
    }

    method ForgetPath(path: Path)
      modifies this
      ensures State() == Forgotten(old(State()), path)
    {
      hydrating := DropAtOrBelow(hydrating, path);
      kinds := DropAtOrBelow(kinds, path);
      files := DropAtOrBelow(files, path);
      placeholders := DropAtOrBelow(placeholders, path);
      projected := DropAtOrBelow(projected, path);
      pendingRenames := DropAtOrBelow(pendingRenames, path);
    }

    method PruneRenamesLocked(now: int)
      modifies this
      ensures State() == Pruned(old(State()), now)
    {
      PrunePending(now);
      var todo := completedRenames.Keys;
      ghost var all, rest := completedRenames, State();
      while todo != {}
        invariant todo <= all.Keys && State() == rest.(completedRenames := completedRenames)
        invariant completedRenames == map pair | pair in all && (pair in todo || now <= all[pair]) :: all[pair]
        decreases |todo|
      {
        var pair :| pair in todo;
        todo := todo - {pair};
        if now > completedRenames[pair] {
          completedRenames := completedRenames - {pair};
        }
      }
    }

    /** Sources are dropped while the loop ranges over them: one that has gone is passed over. */
    method PrunePending(now: int)
      modifies this
      ensures State() == OutsideFacts(old(State()), Expired(old(pendingRenames), now))
    {
      hide OutsideFacts, Forgotten;
      ghost var s, all, done := State(), Expired(pendingRenames, now), {};
      NoRoots(s);
      var todo := pendingRenames.Keys;
      while todo != {}
        invariant todo <= s.pendingRenames.Keys && done <= all && State() == OutsideFacts(s, done)
        invariant forall k :: k in all && k !in todo ==> Under(k, done)
        decreases |todo|
      {
        var source :| source in todo;
        todo := todo - {source};
        PendingOutside(s, done, source);
        if source in pendingRenames && now > pendingRenames[source].until {
          ForgetOneFact(s, done, source);
          ForgetPath(source);
          UnderMore(done, source);
          done := done + {source};
        }
      }
      SameRootFacts(s, done, all);
    }

    /** Only a file with a known fingerprint becomes a rename source. */
    method BeginPendingFileRename(path: Path, now: int) returns (ok: bool)
      modifies this
      ensures Begun(old(State()), State(), path, now, ok)
    {
      hide Pruned;
      PruneRenamesLocked(now);
      if path !in files || (path in kinds && kinds[path]) {
        return false;
      }
      pendingRenames := pendingRenames[path := Pending(files[path], now + EVENT_IGNORE_TTL)];
      ok := true;
    }

    method CountCandidates(target: Path, want: Observed) returns (matched: Path, count: nat)
      ensures count == |Candidates(pendingRenames, pendingRenames.Keys, target, want)|
      ensures count > 0 ==> matched in Candidates(pendingRenames, pendingRenames.Keys, target, want)
    {
      hide Candidates, Fits;
      matched, count := target, 0;
      var todo := pendingRenames.Keys;
      ghost var done: set<Path> := {};
      NoCandidates(pendingRenames, target, want);
      while todo != {}
        invariant done !! todo && done + todo == pendingRenames.Keys
        invariant count == |Candidates(pendingRenames, done, target, want)|
        invariant count > 0 ==> matched in Candidates(pendingRenames, done, target, want)
        decreases |todo|
      {
        var candidate :| candidate in todo;
        CandidateOne(pendingRenames, done, target, want, candidate);
        if Fits(pendingRenames, candidate, target, want) {
          matched, count := candidate, count + 1;
        }
        todo, done := todo - {candidate}, done + {candidate};
      }
      assert done == pendingRenames.Keys;
    }

    /** A target is paired exactly when one pending source fits it, and that source is used up. */
    method ClaimPendingFileRename(target: Path, want: Observed, now: int) returns (source: Option<Path>)
      modifies this
      ensures Claimed(old(State()), State(), target, want, now, source)
    {
      hide Candidates, Pruned;
      PruneRenamesLocked(now);
      var matched, count := CountCandidates(target, want);
      Single(Candidates(pendingRenames, pendingRenames.Keys, target, want));
      if count != 1 {
        return None;
      }
      pendingRenames := pendingRenames - {matched};
      source := Some(matched);
    }

    method MarkFallbackRenameHandled(pair: Pair, now: int)
      modifies this
      ensures State() == Handled(old(State()), pair, now)
    {
      completedRenames := completedRenames[pair := now + RENAME_DEDUPE_TTL];
    }

    /** A marker holds for its whole minute, its last instant included. */
    method FallbackRenameHandled(pair: Pair, now: int) returns (handled: bool)
      modifies this
      ensures State() == Pruned(old(State()), now)
      ensures handled <==> pair in Pruned(old(State()), now).completedRenames
    {
      PruneRenamesLocked(now);
      handled := pair in completedRenames;
    }

    method RebasePath(src: Path, dst: Path, isDir: bool)
      modifies this
      ensures State() == RebasedFacts(old(State()), src, dst, isDir)
    {
      hide RebasedMap, Without, AtOrBelow;
      var carried;
      hydrating, carried := RebaseMap(hydrating, src, dst);
      pendingRenames := DropAtOrBelow(pendingRenames, src);
      files, carried := RebaseMap(files, src, dst);
      placeholders, carried := RebaseMap(placeholders, src, dst);
      projected, carried := RebaseMap(projected, src, dst);
      var before := kinds;
      kinds, carried := RebaseMap(kinds, src, dst);
      if !carried {
        NothingCarried(before, src, dst);
        kinds := kinds[dst := isDir];
      }
    }
  }

  lemma PendingOutside(s: Facts, roots: set<Path>, k: Path)
    requires k in s.pendingRenames
    ensures var pending := OutsideFacts(s, roots).pendingRenames;
            (k in pending <==> !Under(k, roots)) && (k in pending ==> pending[k] == s.pendingRenames[k])
  {
  }

  lemma UnderMore(roots: set<Path>, root: Path)
    ensures Under(root, roots + {root}) && forall k :: Under(k, roots) ==> Under(k, roots + {root})
  {
    assert Matches(root, root, true);
  }

  lemma NothingCarried<T>(m: map<Path, T>, src: Path, dst: Path)
    requires AtOrBelow(m.Keys, src) == {}
    ensures RebasedMap(m, src, dst) == m
  {
  }

  // ---------------------------------------------------------------- what the operations amount to

  /** A source is the only candidate when it has the fingerprint and lies in the same directory, is not the target itself,
      and no other source but perhaps the target has both. */
  lemma OnlyCandidateIff(pending: map<Path, Pending>, target: Path, want: Observed, p: Path)
    ensures Candidates(pending, pending.Keys, target, want) == {p} <==>
              && p in pending && p != target && Parent(p) == Parent(target) && pending[p].observed == want
              && forall q :: q in pending && q != p && q != target && Parent(q) == Parent(target) ==>
                               pending[q].observed != want
  {
    var c := Candidates(pending, pending.Keys, target, want);
    if c == {p} {
      assert p in c;
      forall q | q in pending && q != p && q != target && Parent(q) == Parent(target)
        ensures pending[q].observed != want
      {
        assert q !in c;
      }
    }
  }

  /** A source that has expired lies at or above the path. */
  ghost predicate Stale(s: Facts, now: int, k: Path) {
    exists p :: p in s.pendingRenames && s.pendingRenames[p].until < now && p <= k
  }

  /** A prune forgets exactly the paths at or below an expired source, and exactly the expired markers. */
  lemma PrunedAt(s: Facts, now: int, k: Path, pair: Pair)
    ensures var r := Pruned(s, now); var stale := Stale(s, now, k);
            && (k in r.pendingRenames <==> k in s.pendingRenames && !stale)
            && (k in r.pendingRenames ==> r.pendingRenames[k] == s.pendingRenames[k] && now <= r.pendingRenames[k].until)
            && (k in r.files <==> k in s.files && !stale) && (k in r.files ==> r.files[k] == s.files[k])
            && (k in r.kinds <==> k in s.kinds && !stale) && (k in r.kinds ==> r.kinds[k] == s.kinds[k])
            && (k in r.placeholders <==> k in s.placeholders && !stale)
            && (k in r.projected <==> k in s.projected && !stale)
            && (k in r.hydrating <==> k in s.hydrating && !stale)
            && (pair in r.completedRenames <==> pair in s.completedRenames && now <= s.completedRenames[pair])
            && (pair in r.completedRenames ==> r.completedRenames[pair] == s.completedRenames[pair])
  {
    assert Under(k, Expired(s.pendingRenames, now)) <==> Stale(s, now, k) by {
      if Stale(s, now, k) {
        var p :| p in s.pendingRenames && s.pendingRenames[p].until < now && p <= k;
        assert p in Expired(s.pendingRenames, now) && Matches(k, p, true);
      }
    }
    if k in s.pendingRenames && s.pendingRenames[k].until < now {
      assert Stale(s, now, k);
    }
  }

  /** A rename carries what is known of the source, and of what lies below it, to the target, and drops the sources that
      waited there; a source of unknown kind gets the kind of the rename. */
  lemma RebaseCarries(s: Facts, src: Path, dst: Path, isDir: bool, k: Path)
    requires Incomparable(src, dst) && src <= k
    ensures var r, t := RebasedFacts(s, src, dst, isDir), Rebase(k, src, dst);
            && r.completedRenames == s.completedRenames
            && k !in r.pendingRenames && k !in r.files && k !in r.kinds
            && k !in r.placeholders && k !in r.projected && k !in r.hydrating
            && (k in s.files ==> t in r.files && r.files[t] == s.files[k])
            && (k in s.kinds ==> t in r.kinds && r.kinds[t] == s.kinds[k])
            && (k in s.placeholders ==> t in r.placeholders) && (k in s.projected ==> t in r.projected)
            && (k in s.hydrating ==> t in r.hydrating)
            && ((forall q :: q in s.kinds ==> !(src <= q)) ==> dst in r.kinds && r.kinds[dst] == isDir)
            && forall q :: q in s.pendingRenames && !(src <= q) ==>
                 q in r.pendingRenames && r.pendingRenames[q] == s.pendingRenames[q]
  {
    hide RebasedMap, AtOrBelow;
    assert Matches(k, src, true) && !Matches(dst, src, true);
    RebasedMapAt(s.files, src, dst, k);
    RebasedMapAt(s.kinds, src, dst, k);
    RebasedMapAt(s.placeholders, src, dst, k);
    RebasedMapAt(s.projected, src, dst, k);
    RebasedMapAt(s.hydrating, src, dst, k);
    KnownKinds(s.kinds, src);
  }

  lemma KnownKinds(kinds: map<Path, bool>, src: Path)
    ensures AtOrBelow(kinds.Keys, src) == {} <==> forall q :: q in kinds ==> !(src <= q)
  {
    if forall q :: q in kinds ==> !(src <= q) {
    } else {
      var q :| q in kinds && src <= q;
      assert q in AtOrBelow(kinds.Keys, src);
    }
  }

  /** The two halves of a physical rename are paired: a file whose fingerprint is known goes, and within the time limit one
      with the same fingerprint comes in its directory, while no other source waits there with that fingerprint and none
      above has expired. */
  lemma RenamePaired(s: Facts, t: Facts, u: Facts, src: Path, dst: Path, began: int, now: int, ok: bool,
                     source: Option<Path>)
    requires src in s.files && !(src in s.kinds && s.kinds[src]) && src != dst && Parent(src) == Parent(dst)
    requires began <= now <= began + EVENT_IGNORE_TTL && !Stale(s, began, src)
    requires forall p :: p in s.pendingRenames && p < src ==> now <= s.pendingRenames[p].until
    requires forall p :: p in s.pendingRenames && p != src && p != dst && Parent(p) == Parent(src) ==>
               s.pendingRenames[p].observed != s.files[src]
    requires Begun(s, t, src, began, ok) && Claimed(t, u, dst, s.files[src], now, source)
    ensures ok && source == Some(src) && src !in u.pendingRenames
  {
    hide Pruned, Candidates;
    var any := Pair(src, dst);
    PrunedAt(s, began, src, any);
    StaleLater(s, t, src, began, now);
    PrunedAt(t, now, src, any);
    forall q | q in Pruned(t, now).pendingRenames && q != src
      ensures q in s.pendingRenames && Pruned(t, now).pendingRenames[q] == s.pendingRenames[q]
    {
      PrunedAt(t, now, q, any);
      PrunedAt(s, began, q, any);
    }
    OnlyCandidateIff(Pruned(t, now).pendingRenames, dst, s.files[src], src);
  }

  lemma StaleLater(s: Facts, t: Facts, src: Path, began: int, now: int)
    requires Begun(s, t, src, began, true) && began <= now <= began + EVENT_IGNORE_TTL
    requires forall p :: p in s.pendingRenames && p < src ==> now <= s.pendingRenames[p].until
    ensures !Stale(t, now, src)
  {
    hide Pruned;
    forall p | p in t.pendingRenames && p <= src
      ensures now <= t.pendingRenames[p].until
    {
      PrunedAt(s, began, p, Pair(p, p));
      assert p == src || p < src;
    }
  }

  /** Once the time limit is over, the source and what is known of it are gone, so a file that comes later is a new one. */
  lemma RenameTooLate(s: Facts, t: Facts, u: Facts, src: Path, dst: Path, began: int, now: int, want: Observed,
                      source: Option<Path>)
    requires Begun(s, t, src, began, true) && now > began + EVENT_IGNORE_TTL && Claimed(t, u, dst, want, now, source)
    ensures source != Some(src) && src !in u.pendingRenames && src !in u.files
  {
    hide Pruned, Candidates;
    var any := Pair(src, dst);
    assert t.pendingRenames[src].until < now && src <= src;
    assert Stale(t, now, src);
    PrunedAt(t, now, src, any);
    OnlyCandidateIff(Pruned(t, now).pendingRenames, dst, want, src);
  }

  /** A marker is found, by a look at any later time, exactly within its minute; no other marker changes. */
  lemma HandledIff(s: Facts, pair: Pair, at: int, now: int, other: Pair)
    ensures pair in Pruned(Handled(s, pair, at), now).completedRenames <==> now <= at + 60 * 1_000_000_000
    ensures other != pair ==> (other in Pruned(Handled(s, pair, at), now).completedRenames
                               <==> other in Pruned(s, now).completedRenames)
  {
    hide Pruned;
    PrunedAt(Handled(s, pair, at), now, pair.src, pair);
    PrunedAt(Handled(s, pair, at), now, pair.src, other);
    PrunedAt(s, now, pair.src, other);
  }
}
