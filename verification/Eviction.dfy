/** Cache eviction by age and size, cache_maintenance.go. */
module Eviction {

  datatype File = File(path: string, size: nat, modTime: int)

  /** The limits in force, in the units of the files; 0 switches one off. */
  datatype Rules = Rules(maxAge: nat, maxBytes: nat, now: int)

  /** Chunks that no eviction may touch, and those among them that are still to be uploaded. */
  datatype Protection = Protection(protects: string -> bool, pending: string -> bool)

  function TotalSize(files: seq<File>): nat {
    if files == [] then 0 else files[0].size + TotalSize(files[1..])
  }

  method Total(files: seq<File>) returns (total: nat)
    ensures total == TotalSize(files)
  {
    total := 0;
    for i := 0 to |files|
      invariant total + TotalSize(files[i..]) == TotalSize(files)
    {
      assert files[i..][1..] == files[i + 1..];
      total := total + files[i].size;
    }
  }

  predicate Expired(f: File, rules: Rules) {
    rules.maxAge > 0 && rules.now - f.modTime > rules.maxAge
  }

  predicate OldestFirst(files: seq<File>) {
    forall i, j :: 0 <= i < j < |files| ==> files[i].modTime <= files[j].modTime
  }

  lemma {:induction false} TotalConcat(a: seq<File>, b: seq<File>)
    ensures TotalSize(a + b) == TotalSize(a) + TotalSize(b)
  {
    if a == [] {
      assert a + b == b;
    } else {
      assert (a + b)[1..] == a[1..] + b;
      TotalConcat(a[1..], b);
    }
  }

  lemma TotalSnoc(a: seq<File>, f: File)
    ensures TotalSize(a + [f]) == TotalSize(a) + f.size
  {
    TotalConcat(a, [f]);
    assert [f][1..] == [];
  }

  /** The files of `whole` are those of `a` and those of `b`, each as often, and so are their bytes. */
  ghost predicate Splits(whole: seq<File>, a: seq<File>, b: seq<File>) {
    multiset(whole) == multiset(a) + multiset(b) && TotalSize(whole) == TotalSize(a) + TotalSize(b)
  }

  lemma SplitNothing()
    ensures Splits([], [], [])
  {
  }

  lemma SplitMore(whole: seq<File>, a: seq<File>, b: seq<File>, f: File)
    requires Splits(whole, a, b)
    ensures Splits(whole + [f], a + [f], b) && Splits(whole + [f], a, b + [f])
  {
    TotalSnoc(whole, f);
    TotalSnoc(a, f);
    TotalSnoc(b, f);
  }

  lemma SplitRest(whole: seq<File>, i: nat, a: seq<File>, b: seq<File>)
    requires i <= |whole| && Splits(whole[..i], a, b)
    ensures Splits(whole, a, b + whole[i..])
  {
    assert whole == whole[..i] + whole[i..];
    TotalConcat(whole[..i], whole[i..]);
    TotalConcat(b, whole[i..]);
  }

  lemma SplitMembers(whole: seq<File>, a: seq<File>, b: seq<File>, f: File)
    requires Splits(whole, a, b)
    ensures f in whole <==> f in a || f in b
  {
    assert f in multiset(whole) <==> f in multiset(a) + multiset(b);
  }

  lemma SplitTake(whole: seq<File>, i: nat)
    requires i < |whole|
    ensures whole[..i + 1] == whole[..i] + [whole[i]] && whole[..|whole|] == whole
  {
  }

  /** Any order that puts older files first; files of one age may come in any order. */
  method SortByAge(files: seq<File>) returns (sorted: seq<File>)
    ensures OldestFirst(sorted) && Splits(files, sorted, [])
  {
    hide Splits, OldestFirst;
    sorted := [];
    SplitNothing();
    AnyOrder();
    for i := 0 to |files|
      invariant OldestFirst(sorted) && Splits(files[..i], sorted, [])
    {
      SplitTake(files, i);
      sorted := InsertByAge(sorted, files[i], files[..i]);
    }
    assert files[..|files|] == files;
  }

  lemma AnyOrder()
    ensures OldestFirst([])
  {
  }

  method InsertByAge(sorted: seq<File>, f: File, ghost whole: seq<File>) returns (r: seq<File>)
    requires OldestFirst(sorted) && Splits(whole, sorted, [])
    ensures OldestFirst(r) && Splits(whole + [f], r, [])
  {
    hide Splits;
    var k := |sorted|;
    while k > 0 && f.modTime < sorted[k - 1].modTime
      invariant 0 <= k <= |sorted| && forall j :: k <= j < |sorted| ==> f.modTime < sorted[j].modTime
    {
      k := k - 1;
    }
    InsertFile(sorted, k, f, whole);
    r := sorted[..k] + [f] + sorted[k..];
  }

  lemma InsertFile(s: seq<File>, k: nat, f: File, whole: seq<File>)
    requires k <= |s| && Splits(whole, s, [])
    ensures Splits(whole + [f], s[..k] + [f] + s[k..], [])
  {
    assert s == s[..k] + s[k..];
    TotalConcat(s[..k], s[k..]);
    TotalSnoc(s[..k], f);
    TotalConcat(s[..k] + [f], s[k..]);
    TotalSnoc(whole, f);
  }

  // ---------------------------------------------------------------- what a selection promises

  /** Removed for age: unprotected and expired; and no other such file is kept. */
  ghost predicate AgedOut(aged: seq<File>, survivors: seq<File>, rules: Rules, p: Protection) {
    && (forall f :: f in aged ==> Expired(f, rules) && !p.protects(f.path))
    && forall f :: f in survivors ==> !Expired(f, rules) || p.protects(f.path)
  }

  /** Removed for size, from `total` bytes: unprotected, oldest first, none younger than an unprotected file that is
      kept, each while the rest was over the cap; and in the end the rest fits or is all protected. */
  ghost predicate SizedOut(sized: seq<File>, kept: seq<File>, total: nat, cap: nat, p: Protection) {
    && OldestFirst(sized)
    && (forall f :: f in sized ==> !p.protects(f.path))
    && (forall f, g :: f in sized && g in kept && !p.protects(g.path) ==> f.modTime <= g.modTime)
    && (forall i :: 0 <= i < |sized| ==> total - TotalSize(sized[..i]) > cap)
    && (TotalSize(kept) <= cap || forall g :: g in kept ==> p.protects(g.path))
  }

  ghost predicate Selection(files: seq<File>, aged: seq<File>, sized: seq<File>, kept: seq<File>, rules: Rules,
                            p: Protection)
  {
    && Splits(files, aged + sized, kept)
    && AgedOut(aged, sized + kept, rules, p)
    && (if rules.maxBytes == 0 then sized == []
        else SizedOut(sized, kept, TotalSize(sized) + TotalSize(kept), rules.maxBytes, p))
  }

  predicate StillPending(f: File, p: Protection) {
    p.protects(f.path) && p.pending(f.path)
  }

  /** Skipped for age: exactly the expired files that are still to be uploaded. */
  ghost predicate AgeSkips(skipped: set<string>, files: seq<File>, rules: Rules, p: Protection) {
    forall path :: path in skipped <==> exists f :: f in files && f.path == path && Expired(f, rules) && StillPending(f, p)
  }

  /** The bytes that an eviction may free. */
  function Evictable(files: seq<File>, p: Protection): nat {
    if files == [] then 0
    else
      var last := files[|files| - 1];
      Evictable(files[..|files| - 1], p) + if p.protects(last.path) then 0 else last.size
  }

  /** The second loop reaches the file `j`: all that it may take before does not suffice. */
  predicate Reached(order: seq<File>, j: nat, cap: nat, p: Protection) {
    j < |order| && TotalSize(order) - Evictable(order[..j], p) > cap
  }

  /** Skipped for size, beside those in `aged`: exactly the files that are still to be uploaded and that the second loop
      has reached. */
  ghost predicate SizeSkips(skipped: set<string>, aged: set<string>, order: seq<File>, cap: nat, p: Protection) {
    forall path :: path in skipped <==>
      path in aged || exists j: nat :: Reached(order, j, cap, p) && order[j].path == path && StillPending(order[j], p)
  }

  /** The survivors of the first loop, oldest first. */
  ghost predicate Survivors(files: seq<File>, order: seq<File>, rules: Rules, p: Protection) {
    OldestFirst(order)
    && exists aged, young :: Splits(files, aged, young) && AgedOut(aged, young, rules, p) && Splits(young, order, [])
  }

  /** What is reported as skipped. */
  ghost predicate Skips(skipped: set<string>, files: seq<File>, rules: Rules, p: Protection) {
    if rules.maxBytes == 0 then AgeSkips(skipped, files, rules, p)
    else
      exists aged, order :: AgeSkips(aged, files, rules, p) && Survivors(files, order, rules, p)
                            && SizeSkips(skipped, aged, order, rules.maxBytes, p)
  }

  /** The first loop: expired files go, unless they are protected. */
  method SelectByAge(files: seq<File>, rules: Rules, p: Protection)
    returns (aged: seq<File>, survivors: seq<File>, skipped: set<string>)
    ensures Splits(files, aged, survivors) && AgedOut(aged, survivors, rules, p) && AgeSkips(skipped, files, rules, p)
  {
    hide Splits, AgeSkips;
    NoAgeSkips(rules, p);
    aged, survivors, skipped := [], [], {};
    SplitNothing();
    for i := 0 to |files|
      invariant Splits(files[..i], aged, survivors) && AgedOut(aged, survivors, rules, p)
      invariant AgeSkips(skipped, files[..i], rules, p)
    {
      var file := files[i];
      AgeSkipsMore(skipped, files[..i], rules, p, file);
      SplitTake(files, i);
      SplitMore(files[..i], aged, survivors, file);
      if Expired(file, rules) {
        if p.protects(file.path) {
          if p.pending(file.path) {
            skipped := skipped + {file.path};
          }
          survivors := survivors + [file];
        } else {
          aged := aged + [file];
        }
      } else {
        survivors := survivors + [file];
      }
    }
    assert files[..|files|] == files;
  }

  lemma NoAgeSkips(rules: Rules, p: Protection)
    ensures AgeSkips({}, [], rules, p)
  {
  }

  lemma AgeSkipsMore(skipped: set<string>, files: seq<File>, rules: Rules, p: Protection, f: File)
    requires AgeSkips(skipped, files, rules, p)
    ensures AgeSkips(if Expired(f, rules) && StillPending(f, p) then skipped + {f.path} else skipped, files + [f], rules, p)
  {
    var more := if Expired(f, rules) && StillPending(f, p) then skipped + {f.path} else skipped;
    assert forall g :: g in files + [f] <==> g in files || g == f;
    forall path
      ensures path in more <==> exists g :: g in files + [f] && g.path == path && Expired(g, rules) && StillPending(g, p)
    {
      if g :| g in files && g.path == path && Expired(g, rules) && StillPending(g, p) {
        assert g in files + [f];
      }
      if path == f.path && Expired(f, rules) && StillPending(f, p) {
        assert f in files + [f];
      }
    }
  }

  /** How far the second loop has come with its skips. */
  ghost predicate Skipping(skipped: set<string>, aged: set<string>, order: seq<File>, i: nat, p: Protection) {
    forall path :: path in skipped <==>
      path in aged || exists j: nat :: j < i && j < |order| && order[j].path == path && StillPending(order[j], p)
  }

  lemma SkippingMore(skipped: set<string>, aged: set<string>, order: seq<File>, i: nat, p: Protection)
    requires i < |order| && Skipping(skipped, aged, order, i, p)
    ensures Skipping(if StillPending(order[i], p) then skipped + {order[i].path} else skipped, aged, order, i + 1, p)
  {
  }

  lemma {:induction false} EvictableGrows(order: seq<File>, i: nat, j: nat, p: Protection)
    requires i <= j <= |order|
    ensures Evictable(order[..i], p) <= Evictable(order[..j], p)
    decreases j
  {
    if i < j {
      EvictableGrows(order, i, j - 1, p);
      EvictableSnoc(order, j - 1, p);
    }
  }

  lemma EvictableSnoc(order: seq<File>, i: nat, p: Protection)
    requires i < |order|
    ensures Evictable(order[..i + 1], p) == Evictable(order[..i], p) + if p.protects(order[i].path) then 0 else order[i].size
  {
    assert order[..i + 1][..i] == order[..i];
  }

  /** The loop ends where nothing more is reached. */
  lemma SkippingEnds(skipped: set<string>, aged: set<string>, order: seq<File>, i: nat, cap: nat, p: Protection)
    requires i <= |order| && Skipping(skipped, aged, order, i, p)
    requires forall j: nat :: j < i ==> Reached(order, j, cap, p)
    requires i == |order| || !Reached(order, i, cap, p)
    ensures SizeSkips(skipped, aged, order, cap, p)
  {
    forall j: nat | i <= j < |order|
      ensures !Reached(order, j, cap, p)
    {
      EvictableGrows(order, i, j, p);
    }
  }

  /** How far the second loop has come: `done` files seen, some of them taken. */
  ghost predicate Sizing(done: seq<File>, sized: seq<File>, kept: seq<File>, total: nat, cap: nat, p: Protection) {
    && Splits(done, sized, kept)
    && OldestFirst(sized)
    && (forall f :: f in sized ==> !p.protects(f.path))
    && (forall g :: g in kept ==> p.protects(g.path))
    && forall k :: 0 <= k < |sized| ==> total - TotalSize(sized[..k]) > cap
  }

  lemma SizingNothing(total: nat, cap: nat, p: Protection)
    ensures Sizing([], [], [], total, cap, p)
  {
  }

  lemma SizingStep(done: seq<File>, sized: seq<File>, kept: seq<File>, total: nat, cap: nat, p: Protection, f: File)
    requires Sizing(done, sized, kept, total, cap, p) && forall g :: g in done ==> g.modTime <= f.modTime
    ensures p.protects(f.path) ==> Sizing(done + [f], sized, kept + [f], total, cap, p)
    ensures !p.protects(f.path) && total - TotalSize(sized) > cap ==> Sizing(done + [f], sized + [f], kept, total, cap, p)
  {
    hide Splits;
    SplitMore(done, sized, kept, f);
    forall g | g in sized
      ensures g.modTime <= f.modTime
    {
      SplitMembers(done, sized, kept, g);
    }
    assert forall k :: 0 <= k < |sized| ==> (sized + [f])[..k] == sized[..k];
    assert (sized + [f])[..|sized|] == sized;
  }

  lemma SizingEnd(order: seq<File>, i: nat, sized: seq<File>, kept: seq<File>, cap: nat, p: Protection)
    requires OldestFirst(order) && i <= |order| && Sizing(order[..i], sized, kept, TotalSize(order), cap, p)
    requires i == |order| || TotalSize(order) - TotalSize(sized) <= cap
    ensures Splits(order, sized, kept + order[i..]) && SizedOut(sized, kept + order[i..], TotalSize(order), cap, p)
  {
    SplitRest(order, i, sized, kept);
    forall f, g | f in sized && g in kept + order[i..] && !p.protects(g.path)
      ensures f.modTime <= g.modTime
    {
      SplitMembers(order[..i], sized, kept, f);
      Younger(order, i, f, g);
    }
  }

  lemma Younger(order: seq<File>, i: nat, f: File, g: File)
    requires OldestFirst(order) && i <= |order| && f in order[..i] && g in order[i..]
    ensures f.modTime <= g.modTime
  {
    var j :| 0 <= j < i && order[..i][j] == f;
    var k :| 0 <= k < |order| - i && order[i..][k] == g;
    assert order[j] == f && order[i + k] == g;
  }

  /** The second loop: the oldest survivors go until the rest fits. */
  method SelectBySize(order: seq<File>, cap: nat, p: Protection, aged: set<string>)
    returns (sized: seq<File>, ghost kept: seq<File>, skipped: set<string>)
    requires OldestFirst(order)
    ensures Splits(order, sized, kept) && SizedOut(sized, kept, TotalSize(order), cap, p)
    ensures SizeSkips(skipped, aged, order, cap, p)
  {
    hide Splits, Sizing, OldestFirst, TotalSize, Skipping, Evictable;
    sized, kept, skipped := [], [], aged;
    var current := Total(order);
    var i := 0;
    SizingNothing(TotalSize(order), cap, p);
    NoBytes();
    NothingEvictable(aged, order, p);
    while i < |order| && current > cap
      invariant 0 <= i <= |order| && current == TotalSize(order) - TotalSize(sized)
      invariant TotalSize(sized) == Evictable(order[..i], p)
      invariant Sizing(order[..i], sized, kept, TotalSize(order), cap, p)
      invariant Skipping(skipped, aged, order, i, p) && forall j: nat :: j < i ==> Reached(order, j, cap, p)
    {
      var file := order[i];
      SplitTake(order, i);
      OlderBefore(order, i);
      SizingStep(order[..i], sized, kept, TotalSize(order), cap, p, file);
      SkippingMore(skipped, aged, order, i, p);
      EvictableSnoc(order, i, p);
      i := i + 1;
      if p.protects(file.path) {
        if p.pending(file.path) {
          skipped := skipped + {file.path};
        }
        kept := kept + [file];
        continue;
      }
      TotalSnoc(sized, file);
      Affordable(order[..i], sized + [file], kept, TotalSize(order), cap, p);
      sized := sized + [file];
      current := current - file.size;
    }
    SizingEnd(order, i, sized, kept, cap, p);
    SkippingEnds(skipped, aged, order, i, cap, p);
    kept := kept + order[i..];
  }

  lemma NothingEvictable(aged: set<string>, order: seq<File>, p: Protection)
    ensures Evictable(order[..0], p) == 0 && Skipping(aged, aged, order, 0, p)
  {
  }

  lemma NoBytes()
    ensures TotalSize([]) == 0
  {
  }

  lemma OlderBefore(order: seq<File>, i: nat)
    requires OldestFirst(order) && i < |order|
    ensures forall g :: g in order[..i] ==> g.modTime <= order[i].modTime
  {
  }

  lemma Affordable(done: seq<File>, sized: seq<File>, kept: seq<File>, total: nat, cap: nat, p: Protection)
    requires Sizing(done, sized, kept, total, cap, p)
    ensures TotalSize(sized) <= TotalSize(done)
  {
  }

  /** The removed files are those aged out, and then those evicted for size. */
  ghost predicate Selected(files: seq<File>, remove: seq<File>, rules: Rules, p: Protection) {
    exists aged, sized, kept :: remove == aged + sized && Selection(files, aged, sized, kept, rules, p)
  }

  ghost predicate SkippedCount(skipped: nat, files: seq<File>, rules: Rules, p: Protection) {
    exists paths :: skipped == |paths| && Skips(paths, files, rules, p)
  }

  /** The files to remove, and how many chunks were left for their pending upload. */
  method SelectByRules(files: seq<File>, rules: Rules, p: Protection) returns (remove: seq<File>, skipped: nat)
    ensures Selected(files, remove, rules, p) && SkippedCount(skipped, files, rules, p)
  {
    hide Splits, SizedOut, OldestFirst, Selection, AgeSkips, SizeSkips;
    if rules.maxAge == 0 && rules.maxBytes == 0 {
      Untouched(files, rules, p);
      var nil: seq<File> := [];
      assert nil == nil + nil;
      return [], 0;
    }
    var aged, young, paths := SelectByAge(files, rules, p);
    if rules.maxBytes == 0 {
      NoSizeLimit(files, aged, young, rules, p);
      assert aged == aged + [];
      return aged, |paths|;
    }
    var order := SortByAge(young);
    var sized;
    ghost var kept;
    ghost var agedPaths := paths;
    sized, kept, paths := SelectBySize(order, rules.maxBytes, p, paths);
    assert Survivors(files, order, rules, p);
    assert Skips(paths, files, rules, p);
    remove, skipped := aged + sized, |paths|;
    Reassemble(files, aged, young, order, sized, kept, rules, p);
  }

  lemma NoSizeLimit(files: seq<File>, aged: seq<File>, young: seq<File>, rules: Rules, p: Protection)
    requires rules.maxBytes == 0 && Splits(files, aged, young) && AgedOut(aged, young, rules, p)
    ensures Selection(files, aged, [], young, rules, p)
  {
    assert aged + [] == aged && [] + young == young;
  }

  lemma Untouched(files: seq<File>, rules: Rules, p: Protection)
    requires rules.maxAge == 0 && rules.maxBytes == 0
    ensures Selection(files, [], [], files, rules, p) && Skips({}, files, rules, p)
  {
    assert [] + files == files;
  }

  lemma Reassemble(files: seq<File>, aged: seq<File>, young: seq<File>, order: seq<File>, sized: seq<File>,
                   kept: seq<File>, rules: Rules, p: Protection)
    requires Splits(files, aged, young) && AgedOut(aged, young, rules, p) && Splits(young, order, [])
    requires rules.maxBytes > 0 && Splits(order, sized, kept) && SizedOut(sized, kept, TotalSize(order), rules.maxBytes, p)
    ensures Selection(files, aged, sized, kept, rules, p)
  {
    TotalConcat(aged, sized);
    forall f | f in sized + kept
      ensures f in young
    {
      SplitMembers(order, sized, kept, f);
      SplitMembers(young, order, [], f);
    }
  }

  /** Without a size limit the files removed are exactly those older than the age limit that nothing protects. */
  lemma AgeOnlyIff(files: seq<File>, remove: seq<File>, rules: Rules, p: Protection, f: File)
    requires rules.maxBytes == 0 && Selected(files, remove, rules, p)
    ensures f in remove <==>
              f in files && !p.protects(f.path) && rules.maxAge != 0 && f.modTime + rules.maxAge < rules.now
  {
    var aged, sized, kept :| remove == aged + sized && Selection(files, aged, sized, kept, rules, p);
    SplitMembers(files, aged + sized, kept, f);
  }

  // ---------------------------------------------------------------- cleaning the directory

  ghost predicate DistinctPaths(files: seq<File>) {
    forall i, j :: 0 <= i < j < |files| ==> files[i].path != files[j].path
  }

  function Drop(files: seq<File>, path: string): seq<File> {
    if files == [] then [] else if files[0].path == path then files[1..] else [files[0]] + Drop(files[1..], path)
  }

  lemma {:induction false} DropOne(files: seq<File>, f: File)
    requires DistinctPaths(files) && f in files
    ensures Splits(files, [f], Drop(files, f.path)) && DistinctPaths(Drop(files, f.path))
    ensures forall g :: g in Drop(files, f.path) ==> g in files
  {
    hide Splits;
    var head, tail := files[0], files[1..];
    assert files == [head] + tail;
    if head.path == f.path {
      var i :| 0 <= i < |files| && files[i] == f;
      assert i == 0;
      SplitHead(f, tail);
    } else {
      assert f in tail;
      DropOne(tail, f);
      SplitFront(head, tail, [f], Drop(tail, f.path));
      assert forall g :: g in tail ==> g.path != head.path;
    }
  }

  lemma SplitHead(f: File, tail: seq<File>)
    ensures Splits([f] + tail, [f], tail)
  {
    TotalConcat([f], tail);
  }

  lemma SplitFront(x: File, whole: seq<File>, a: seq<File>, b: seq<File>)
    requires Splits(whole, a, b)
    ensures Splits([x] + whole, a, [x] + b)
  {
    TotalConcat([x], whole);
    TotalConcat([x], b);
  }

  datatype CleanResult = CleanResult(beforeBytes: nat, afterBytes: nat, removed: nat, freedBytes: int, skipped: nat)

  ghost predicate NoneProtected(files: seq<File>, p: Protection) {
    forall f :: f in files ==> !p.protects(f.path)
  }

  ghost predicate AllProtected(files: seq<File>, p: Protection) {
    forall f :: f in files ==> p.protects(f.path)
  }

  ghost predicate SelectedAll(files: seq<File>, remove: seq<File>, p: Protection) {
    exists kept: seq<File> :: Splits(files, remove, kept) && NoneProtected(remove, p) && AllProtected(kept, p)
  }

  /** How many protected files are still to be uploaded. */
  function PendingFiles(files: seq<File>, p: Protection): nat {
    if files == [] then 0
    else
      var last := files[|files| - 1];
      PendingFiles(files[..|files| - 1], p) + if p.protects(last.path) && p.pending(last.path) then 1 else 0
  }

  function PendingPlaces(files: seq<File>, p: Protection): set<nat> {
    set i: nat | i < |files| && p.protects(files[i].path) && p.pending(files[i].path)
  }

  /** Counted by their places in the listing. */
  lemma {:induction false} PendingCount(files: seq<File>, p: Protection)
    ensures PendingFiles(files, p) == |PendingPlaces(files, p)|
  {
    if files == [] {
      assert PendingPlaces(files, p) == {};
    } else {
      var n := |files| - 1;
      PendingCount(files[..n], p);
      assert PendingPlaces(files, p) == PendingPlaces(files[..n], p) + if n in PendingPlaces(files, p) then {n} else {};
    }
  }

  class CacheDirectory {
    var files: seq<File>

    /** Every unprotected file, and the number of protected ones still to be uploaded. */
    method SelectAll(p: Protection) returns (remove: seq<File>, skipped: nat)
      ensures SelectedAll(files, remove, p) && skipped == PendingFiles(files, p)
    {
      hide Splits;
      remove, skipped := [], 0;
      ghost var kept := [];
      SplitNothing();
      for i := 0 to |files|
        invariant Splits(files[..i], remove, kept)
        invariant NoneProtected(remove, p) && AllProtected(kept, p) && skipped == PendingFiles(files[..i], p)
      {
        var entry := files[i];
        SplitTake(files, i);
        assert files[..i + 1][..i] == files[..i];
        SplitMore(files[..i], remove, kept, entry);
        if p.protects(entry.path) {
          if p.pending(entry.path) {
            skipped := skipped + 1;
          }
          kept := kept + [entry];
        } else {
          remove := remove + [entry];
        }
      }
      assert files[..|files|] == files;
    }

    /** Either mode removes no protected file, and what is freed is exactly what is gone, even when a removal fails
        half way. */
    method CleanCache(clearAll: bool, rules: Rules, p: Protection, fails: string -> bool)
      returns (ok: bool, result: CleanResult, ghost gone: seq<File>)
      requires DistinctPaths(files)
      modifies this
      ensures DistinctPaths(files) && Splits(old(files), gone, files)
      ensures NoneProtected(gone, p)
      ensures ok ==> result.beforeBytes == TotalSize(old(files)) && result.afterBytes == TotalSize(files)
                     && result.freedBytes == TotalSize(gone) && result.removed == |gone|
      ensures if clearAll then result.skipped == PendingFiles(old(files), p)
              else SkippedCount(result.skipped, old(files), rules, p)
      ensures ok && clearAll ==> AllProtected(files, p)
      ensures ok && !clearAll ==> Selected(old(files), gone, rules, p)
    {
      hide Splits, Selected, SkippedCount, PendingFiles;
      ghost var before := files;
      var beforeBytes := Total(files);
      var remove, skipped;
      ghost var kept;
      if clearAll {
        remove, skipped := SelectAll(p);
        kept :| Splits(files, remove, kept) && NoneProtected(remove, p) && AllProtected(kept, p);
      } else {
        remove, skipped := SelectByRules(files, rules, p);
        kept := SelectionSafe(files, remove, rules, p);
      }
      gone := [];
      NothingGone(files);
      for i := 0 to |remove|
        invariant gone == remove[..i] && Splits(before, gone, files) && DistinctPaths(files)
      {
        var file := remove[i];
        if fails(file.path) {
          return false, CleanResult(beforeBytes, 0, i, 0, skipped), gone;
        }
        StillThere(before, remove, kept, files, i);
        DropOne(files, file);
        SplitTake(remove, i);
        GoneMore(before, gone, files, file);
        files := Drop(files, file.path);
        gone := gone + [file];
      }
      assert remove[..|remove|] == remove;
      KeptIsLeft(before, remove, kept, files);
      var afterBytes := Total(files);
      ok, result := true, CleanResult(beforeBytes, afterBytes, |remove|, beforeBytes - afterBytes, skipped);
    }
  }

  lemma SelectionSafe(files: seq<File>, remove: seq<File>, rules: Rules, p: Protection) returns (kept: seq<File>)
    requires Selected(files, remove, rules, p)
    ensures Splits(files, remove, kept) && NoneProtected(remove, p)
  {
    var aged, sized, k :| remove == aged + sized && Selection(files, aged, sized, k, rules, p);
    kept := k;
  }

  lemma NothingGone(files: seq<File>)
    ensures Splits(files, [], files)
  {
  }

  lemma GoneMore(before: seq<File>, gone: seq<File>, files: seq<File>, f: File)
    requires Splits(before, gone, files) && Splits(files, [f], Drop(files, f.path))
    ensures Splits(before, gone + [f], Drop(files, f.path))
  {
    TotalConcat(gone, [f]);
  }

  /** With distinct paths a file that is still to be removed has not been removed yet. */
  lemma StillThere(before: seq<File>, remove: seq<File>, kept: seq<File>, files: seq<File>, i: nat)
    requires i < |remove| && Splits(before, remove, kept) && Splits(before, remove[..i], files)
    requires DistinctPaths(before)
    ensures remove[i] in files
  {
    var f := remove[i];
    Once(before, f);
    assert remove == remove[..i] + [f] + remove[i + 1..];
    assert multiset(remove)[f] >= multiset(remove[..i])[f] + 1;
    assert multiset(before)[f] == multiset(remove[..i])[f] + multiset(files)[f];
  }

  lemma {:induction false} Once(files: seq<File>, f: File)
    requires DistinctPaths(files)
    ensures multiset(files)[f] <= 1
  {
    if files == [] {
    } else {
      assert files == [files[0]] + files[1..];
      Once(files[1..], f);
      if files[0] == f {
        assert f !in files[1..];
      }
    }
  }

  lemma KeptIsLeft(before: seq<File>, remove: seq<File>, kept: seq<File>, files: seq<File>)
    requires Splits(before, remove, kept) && Splits(before, remove, files)
    ensures forall f :: f in files <==> f in kept
    ensures TotalSize(files) == TotalSize(before) - TotalSize(remove)
  {
    assert multiset(files) == multiset(before) - multiset(remove) == multiset(kept);
    forall f
      ensures f in files <==> f in kept
    {
      assert f in files <==> f in multiset(files);
    }
  }
}
