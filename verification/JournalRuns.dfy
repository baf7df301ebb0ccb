/** Whole lives of the mutation journal: session after session opens the log directory, restores, repairs the local
    roots of its records, compacts, and appends, and each may be cut short anywhere. */
module JournalRuns {
  import opened MutationLog
  import opened MutationStore
  import opened Wrappers

  datatype Append = Append(event: Event, fault: AppendFault)

  /** A session with the names of the log it opens and of the one it compacts into, its scope, the repair of local
      paths, how its compaction ends, and its appends if that succeeds. */
  datatype Session = Session(
    openName: int,
    compactName: int,
    scope: string,
    repair: string -> string,
    fault: Fault,
    appends: seq<Append>)

  /** Only the records of the session's own scope have their local roots repaired. */
  function RepairedRecord(r: Record, s: Session): Record {
    if r.scope != s.scope then r
    else r.(oldLocalPath := s.repair(r.oldLocalPath), newLocalPath := s.repair(r.newLocalPath))
  }

  function Repaired(live: Live, s: Session): Live {
    map id | id in live :: RepairedRecord(live[id], s)
  }

  /** The compaction goes through. */
  predicate Goes(dir: seq<LogFile>, s: Session) {
    !Named(dir, s.compactName) && (s.fault.NoFault? || (s.fault.StopRemoving? && s.fault.count >= |dir|))
  }

  function AppendedAll(c: Codec, logs: seq<LogFile>, name: int, appends: seq<Append>): seq<LogFile>
    decreases |appends|
  {
    if appends == [] then logs
    else AppendedAll(c, Appended(c, logs, name, appends[0].event, appends[0].fault), name, appends[1..])
  }

  /** The directory that a session leaves. One that cannot restore, or whose compaction fails, does nothing more. */
  ghost function After(c: Codec, logs: seq<LogFile>, s: Session): seq<LogFile> {
    var dir := Opened(logs, s.openName);
    match ReplayFiles(c, dir, map[])
    case Err => dir
    case Ok(live) =>
      var compacted := AfterCompact(c, dir, Repaired(live, s), s.compactName, s.fault);
      if Goes(dir, s) then AppendedAll(c, compacted, s.compactName, s.appends) else compacted
  }

  /** That is what the store does; an append is reported as done only if nothing has failed in it. */
  method RunSession(c: Codec, logs: seq<LogFile>, s: Session) returns (left: seq<LogFile>, done: seq<bool>)
    requires Sorted(logs)
    ensures left == After(c, logs, s) && Sorted(left)
    ensures |done| == if ReplayFiles(c, Opened(logs, s.openName), map[]).Ok? && Goes(Opened(logs, s.openName), s)
                      then |s.appends| else 0
    ensures forall i :: 0 <= i < |done| ==> (done[i] <==> s.appends[i].fault == Appends)
  {
    hide Sorted, Opened, ReplayFiles, AfterCompact, Appended;
    done := [];
    var store := new MutationStore(c, logs, s.openName);
    var ok, live := store.Restore();
    if !ok {
      return store.logs, [];
    }
    ok := store.Compact(Repaired(live, s), s.compactName, s.fault);
    if !ok {
      return store.logs, [];
    }
    var i := 0;
    while i < |s.appends|
      invariant i <= |s.appends| && store.Valid() && store.filePath == s.compactName
      invariant AppendedAll(c, store.logs, s.compactName, s.appends[i..]) == After(c, logs, s)
      invariant |done| == i && forall j :: 0 <= j < i ==> (done[j] <==> s.appends[j].fault == Appends)
    {
      var appended := store.AppendEvent(s.appends[i].event, s.appends[i].fault);
      done := done + [appended];
      assert s.appends[i..][1..] == s.appends[i + 1..];
      i := i + 1;
    }
    left := store.logs;
  }

  ghost function Life(c: Codec, logs: seq<LogFile>, sessions: seq<Session>): seq<LogFile>
    decreases |sessions|
  {
    if sessions == [] then logs else Life(c, After(c, logs, sessions[0]), sessions[1..])
  }

  function Attempts(c: Codec, appends: seq<Append>): (attempts: seq<Attempt>)
    ensures |attempts| == |appends|
    ensures forall i :: 0 <= i < |appends| ==>
              attempts[i] == Attempt(appends[i].event, Written(c, appends[i].event, appends[i].fault))
  {
    if appends == [] then []
    else [Attempt(appends[0].event, Written(c, appends[0].event, appends[0].fault))] + Attempts(c, appends[1..])
  }

  /** The records after the events that were written whole. */
  function Told(c: Codec, logs: seq<LogFile>, live: Live, s: Session): Live {
    if Goes(Opened(logs, s.openName), s) then Fold(Kept(c, Attempts(c, s.appends)), live) else live
  }

  ghost function ToldAll(c: Codec, logs: seq<LogFile>, live: Live, sessions: seq<Session>): Live
    decreases |sessions|
  {
    if sessions == [] then live
    else ToldAll(c, After(c, logs, sessions[0]), Told(c, logs, live, sessions[0]), sessions[1..])
  }

  /** No append of the session goes through after one that stopped inside its line. */
  predicate CleanSession(c: Codec, logs: seq<LogFile>, s: Session) {
    Goes(Opened(logs, s.openName), s) ==> Clean(c, Attempts(c, s.appends))
  }

  ghost predicate AllClean(c: Codec, logs: seq<LogFile>, sessions: seq<Session>)
    decreases |sessions|
  {
    sessions != [] ==> CleanSession(c, logs, sessions[0]) && AllClean(c, After(c, logs, sessions[0]), sessions[1..])
  }

  /** Its lines fit the scanner, and so do those of the records it repairs. */
  ghost predicate Sound(c: Codec, s: Session) {
    && AttemptsFit(c, Attempts(c, s.appends))
    && forall r :: Writable(c, UpsertEvent(r)) ==> Writable(c, UpsertEvent(RepairedRecord(r, s)))
  }

  // ---------------------------------------------------------------- the same records up to their local paths

  function Bare(r: Record): Record {
    r.(oldLocalPath := "", newLocalPath := "")
  }

  predicate SameRecords(a: Live, b: Live) {
    a.Keys == b.Keys && forall id :: id in a ==> Bare(a[id]) == Bare(b[id])
  }

  lemma EffectSame(e: Event, a: Live, b: Live)
    requires SameRecords(a, b)
    ensures SameRecords(Effect(e, a), Effect(e, b))
  {
  }

  lemma {:induction false} FoldSame(es: seq<Event>, a: Live, b: Live)
    requires SameRecords(a, b)
    ensures SameRecords(Fold(es, a), Fold(es, b))
  {
    if es == [] {
    } else {
      hide SameRecords, Effect;
      EffectSame(es[0], a, b);
      FoldSame(es[1..], Effect(es[0], a), Effect(es[0], b));
    }
  }

  lemma RepairedSame(live: Live, s: Session)
    ensures SameRecords(Repaired(live, s), live)
  {
  }

  lemma RepairedGood(c: Codec, live: Live, s: Session)
    requires GoodLive(c, live) && Sound(c, s)
    ensures GoodLive(c, Repaired(live, s))
  {
    forall id | id in live
      ensures Writable(c, UpsertEvent(RepairedRecord(live[id], s)))
    {
      assert Writable(c, UpsertEvent(live[id]));
    }
  }

  // ---------------------------------------------------------------- opening changes nothing

  lemma {:induction false} ReplayConcat(c: Codec, a: seq<LogFile>, b: seq<LogFile>, live: Live)
    ensures ReplayFiles(c, a + b, live)
         == match ReplayFiles(c, a, live) case Err => Err case Ok(next) => ReplayFiles(c, b, next)
  {
    if a == [] {
      assert a + b == b;
    } else {
      assert (a + b)[1..] == a[1..] + b;
      match ReplayText(c, a[0].text, live)
      case Err =>
      case Ok(next) => ReplayConcat(c, a[1..], b, next);
    }
  }

  lemma OpenedSame(c: Codec, logs: seq<LogFile>, name: int)
    ensures ReplayFiles(c, Opened(logs, name), map[]) == ReplayFiles(c, logs, map[])
  {
    if !Named(logs, name) {
      var i, empty := Rank(logs, name), [LogFile(name, "")];
      assert logs == logs[..i] + logs[i..] && logs[..i] + empty + logs[i..] == logs[..i] + (empty + logs[i..]);
      ReplayConcat(c, logs[..i], logs[i..], map[]);
      ReplayConcat(c, logs[..i], empty + logs[i..], map[]);
      EmptyLogReplays(c, name, logs[i..]);
    }
  }

  lemma EmptyLogReplays(c: Codec, name: int, rest: seq<LogFile>)
    ensures forall live :: ReplayFiles(c, [LogFile(name, "")] + rest, live) == ReplayFiles(c, rest, live)
  {
    assert ([LogFile(name, "")] + rest)[1..] == rest;
    assert Scan("") == [];
  }

  // ---------------------------------------------------------------- one session

  lemma {:induction false} FoldGood(c: Codec, es: seq<Event>, live: Live)
    requires GoodLive(c, live) && AllWritable(c, es)
    ensures GoodLive(c, Fold(es, live))
  {
    if es == [] {
    } else {
      assert Writable(c, es[0]) && (es[0].kind == "upsert" ==> UpsertEvent(es[0].record) == es[0]);
      FoldGood(c, es[1..], Effect(es[0], live));
    }
  }

  lemma {:induction false} KeptWritable(c: Codec, attempts: seq<Attempt>)
    requires forall i :: 0 <= i < |attempts| ==> Writable(c, attempts[i].event)
    ensures AllWritable(c, Kept(c, attempts))
  {
    hide Writable;
    if attempts == [] {
    } else {
      assert forall i :: 0 <= i < |attempts[1..]| ==> attempts[1..][i] == attempts[i + 1];
      KeptWritable(c, attempts[1..]);
    }
  }

  lemma OneFile(c: Codec, name: int, text: string)
    ensures ReplayFiles(c, [LogFile(name, text)], map[]) == ReplayText(c, text, map[])
  {
    assert [LogFile(name, text)][1..] == [];
  }

  lemma OneAppend(c: Codec, name: int, text: string, e: Event, fault: AppendFault)
    ensures Appended(c, [LogFile(name, text)], name, e, fault)
         == [LogFile(name, text + PieceOf(c, Attempt(e, Written(c, e, fault))))]
  {
    var logs := [LogFile(name, text)];
    assert logs[0].name == name && Named(logs, name) && Rank(logs, name) == 0;
    if fault.OpenFails? {
      assert text + "" == text;
    }
  }

  lemma {:induction false} AppendsOnOneFile(c: Codec, name: int, text: string, appends: seq<Append>)
    ensures AppendedAll(c, [LogFile(name, text)], name, appends)
         == [LogFile(name, text + AttemptText(c, Attempts(c, appends)))]
    decreases |appends|
  {
    if appends == [] {
      assert text + "" == text;
    } else {
      var a := appends[0];
      var piece := PieceOf(c, Attempt(a.event, Written(c, a.event, a.fault)));
      OneAppend(c, name, text, a.event, a.fault);
      AppendsOnOneFile(c, name, text + piece, appends[1..]);
      assert Attempts(c, appends)[1..] == Attempts(c, appends[1..]);
      Assoc(text, piece, AttemptText(c, Attempts(c, appends[1..])));
    }
  }

  lemma NothingElse(dir: seq<LogFile>, name: int, text: string)
    ensures Compacted(dir, name, text, |dir|) == [LogFile(name, text)]
  {
  }

  /** Where a compaction stops. */
  lemma StopsAt(c: Codec, dir: seq<LogFile>, live: Live, name: int, fault: Fault) returns (n: nat, removed: nat)
    requires !Named(dir, name) && !fault.WriteError?
    ensures n <= |CompactText(c, live)| && (removed > 0 ==> n == |CompactText(c, live)|) && removed <= |dir|
    ensures AfterCompact(c, dir, live, name, fault) == Compacted(dir, name, CompactText(c, live)[..n], removed)
  {
    hide Compacted, CompactText;
    var text := CompactText(c, live);
    n := if fault.CrashWriting? && fault.bytes < |text| then fault.bytes else |text|;
    removed := if fault.CrashWriting? then 0
               else if fault.NoFault? || fault.count >= |dir| then |dir| else fault.count;
    assert text[..|text|] == text;
  }

  /** Records that are each old or repaired. */
  lemma OldOrRepaired(c: Codec, found: Live, live: Live, s: Session)
    requires GoodLive(c, live) && Sound(c, s) && found.Keys == live.Keys
    requires forall id :: id in live ==> found[id] in {live[id], Repaired(live, s)[id]}
    ensures SameRecords(found, live) && GoodLive(c, found)
  {
    RepairedGood(c, live, s);
    forall id | id in live
      ensures Bare(found[id]) == Bare(live[id]) && found[id].id == id && Writable(c, UpsertEvent(found[id]))
    {
      assert found[id] == live[id] || found[id] == RepairedRecord(live[id], s);
      assert Writable(c, UpsertEvent(live[id]));
    }
  }

  /** A compaction that is cut short: every record is there, as it was or repaired. */
  lemma StopSafe(c: Codec, dir: seq<LogFile>, live: Live, s: Session)
    requires ValidCodec(c) && ReplayFiles(c, dir, map[]) == Ok(live) && GoodLive(c, live) && Sound(c, s)
    ensures var result := ReplayFiles(c, AfterCompact(c, dir, Repaired(live, s), s.compactName, s.fault), map[]);
            && result.Ok? && SameRecords(result.live, live) && GoodLive(c, result.live)
            && (Repaired(live, s) == live ==> result.live == live)
  {
    hide ReplayFiles, ValidCodec, Compacted, LogText, Sound, GoodLive, SameRecords;
    var fixed := Repaired(live, s);
    if Named(dir, s.compactName) || s.fault.WriteError? {
      SameItself(live);
    } else {
      var n, removed := StopsAt(c, dir, fixed, s.compactName, s.fault);
      RepairedGood(c, live, s);
      hide AfterCompact, Named, Repaired;
      RepairedKeys(live, s);
      CompactCrashSafe(c, dir, live, fixed, SortedIDs(fixed.Keys), s.compactName, n, removed);
      OldOrRepaired(c, ReplayFiles(c, Compacted(dir, s.compactName, CompactText(c, fixed)[..n], removed), map[]).live,
                    live, s);
    }
  }

  lemma RepairedKeys(live: Live, s: Session)
    ensures Repaired(live, s).Keys == live.Keys
  {
  }

  lemma SameItself(live: Live)
    ensures SameRecords(live, live)
  {
  }

  lemma AppendsSafe(c: Codec, dir: seq<LogFile>, live: Live, s: Session)
    requires ValidCodec(c) && ReplayFiles(c, dir, map[]) == Ok(live) && GoodLive(c, live) && Sound(c, s) && Goes(dir, s)
    ensures var compacted := AfterCompact(c, dir, Repaired(live, s), s.compactName, s.fault);
            ReplayFiles(c, AppendedAll(c, compacted, s.compactName, s.appends), map[])
            == if Clean(c, Attempts(c, s.appends)) then Ok(Fold(Kept(c, Attempts(c, s.appends)), Repaired(live, s)))
               else Err
  {
    var fixed := Repaired(live, s);
    RepairedGood(c, live, s);
    var text := CompactText(c, fixed);
    NothingElse(dir, s.compactName, text);
    hide ReplayFiles, ValidCodec, Compacted, CompactText, Clean, Kept;
    AppendsOnOneFile(c, s.compactName, text, s.appends);
    OneFile(c, s.compactName, text + AttemptText(c, Attempts(c, s.appends)));
    AttemptsAfterCompact(c, fixed, Attempts(c, s.appends));
  }

  /** One session keeps the journal readable exactly when no append went through after a torn one, and then a restore
      finds the old records and the events that were written whole, each record as told or with its local roots
      repaired. */
  lemma SessionSafeIff(c: Codec, logs: seq<LogFile>, live: Live, s: Session)
    requires ValidCodec(c) && ReplayFiles(c, logs, map[]) == Ok(live) && GoodLive(c, live) && Sound(c, s)
    ensures var result := ReplayFiles(c, After(c, logs, s), map[]);
            && (result.Ok? <==> CleanSession(c, logs, s))
            && (result.Ok? ==>
                  && SameRecords(result.live, Told(c, logs, live, s)) && GoodLive(c, result.live)
                  && (Repaired(live, s) == live ==> result.live == Told(c, logs, live, s)))
  {
    OpenedSame(c, logs, s.openName);
    hide ReplayFiles, ValidCodec, AfterCompact, Opened, Clean, Kept, Repaired, Goes, SameRecords;
    var dir, attempts := Opened(logs, s.openName), Attempts(c, s.appends);
    if Goes(dir, s) {
      AppendsSafe(c, dir, live, s);
      RepairedGood(c, live, s);
      RepairedSame(live, s);
      FoldSame(Kept(c, attempts), Repaired(live, s), live);
      KeptWritable(c, attempts);
      FoldGood(c, Kept(c, attempts), Repaired(live, s));
    } else {
      StopSafe(c, dir, live, s);
    }
  }

  // ---------------------------------------------------------------- what a session repairs

  /** A session whose compaction goes through writes each record of its own scope back with both local paths repaired,
      and each other one as it was; on top of these come the events it has written whole. */
  lemma SessionRepairs(c: Codec, logs: seq<LogFile>, live: Live, s: Session, fixed: Live)
    requires ValidCodec(c) && ReplayFiles(c, logs, map[]) == Ok(live) && GoodLive(c, live) && Sound(c, s)
    requires Goes(Opened(logs, s.openName), s) && Clean(c, Attempts(c, s.appends))
    requires fixed.Keys == live.Keys
    requires forall id :: id in live ==>
               if live[id].scope == s.scope
               then fixed[id] == live[id].(oldLocalPath := s.repair(live[id].oldLocalPath),
                                           newLocalPath := s.repair(live[id].newLocalPath))
               else fixed[id] == live[id]
    ensures ReplayFiles(c, After(c, logs, s), map[]) == Ok(Fold(Kept(c, Attempts(c, s.appends)), fixed))
  {
    hide ReplayFiles, ValidCodec, AfterCompact, Opened, Clean, Kept, Goes, Sound, GoodLive, AppendedAll, Fold;
    assert fixed == Repaired(live, s);
    hide Repaired;
    OpenedSame(c, logs, s.openName);
    AppendsSafe(c, Opened(logs, s.openName), live, s);
  }

  /** One that appends nothing: record by record. */
  lemma OwnScopeRepaired(c: Codec, logs: seq<LogFile>, live: Live, s: Session, id: string)
    requires ValidCodec(c) && ReplayFiles(c, logs, map[]) == Ok(live) && GoodLive(c, live) && Sound(c, s)
    requires !Named(Opened(logs, s.openName), s.compactName) && s.fault == NoFault && s.appends == []
    ensures var result := ReplayFiles(c, After(c, logs, s), map[]);
            && result.Ok? && result.live.Keys == live.Keys
            && (id in live ==>
                  var was, now := live[id], result.live[id];
                  && (was.scope == s.scope ==> now.oldLocalPath == s.repair(was.oldLocalPath)
                                               && now.newLocalPath == s.repair(was.newLocalPath))
                  && (was.scope != s.scope ==> now == was)
                  && now == was.(oldLocalPath := now.oldLocalPath, newLocalPath := now.newLocalPath))
  {
    hide ReplayFiles, ValidCodec, AfterCompact, Opened, Sound, GoodLive, After;
    var fixed := map i | i in live ::
      if live[i].scope == s.scope
      then live[i].(oldLocalPath := s.repair(live[i].oldLocalPath), newLocalPath := s.repair(live[i].newLocalPath))
      else live[i];
    SessionRepairs(c, logs, live, s, fixed);
  }

  /** The events of appends that all went through. */
  function EventsOfAppends(appends: seq<Append>): seq<Event> {
    if appends == [] then [] else [appends[0].event] + EventsOfAppends(appends[1..])
  }

  lemma {:induction false} AllWhole(c: Codec, appends: seq<Append>)
    requires forall i :: 0 <= i < |appends| ==> appends[i].fault == Appends
    ensures Clean(c, Attempts(c, appends)) && Kept(c, Attempts(c, appends)) == EventsOfAppends(appends)
  {
    if appends == [] {
    } else {
      assert forall i :: 0 <= i < |appends[1..]| ==> appends[1..][i] == appends[i + 1];
      AllWhole(c, appends[1..]);
      var attempts := Attempts(c, appends);
      assert attempts[1..] == Attempts(c, appends[1..]) && attempts[0].event == appends[0].event;
      assert Whole(c, attempts[0]);
      CleanCons(c, attempts);
    }
  }

  /** What an append has reported as done is not lost, as long as the log can be read at all. */
  lemma {:induction false} DoneIsKept(c: Codec, appends: seq<Append>, i: nat)
    requires i < |appends| && appends[i].fault == Appends && Clean(c, Attempts(c, appends))
    ensures appends[i].event in Kept(c, Attempts(c, appends))
  {
    var attempts := Attempts(c, appends);
    assert Whole(c, attempts[i]) && attempts[1..] == Attempts(c, appends[1..]);
    CleanCons(c, attempts);
    if i == 0 {
    } else {
      assert !NoneWhole(c, attempts[1..]) by {
        assert attempts[1..][i - 1] == attempts[i];
      }
      DoneIsKept(c, appends[1..], i - 1);
    }
  }

  /** A session without a fault is restored with all it has told, in order, on top of what it has found and repaired. */
  lemma FaultFreeSession(c: Codec, logs: seq<LogFile>, live: Live, s: Session, fixed: Live)
    requires ValidCodec(c) && ReplayFiles(c, logs, map[]) == Ok(live) && GoodLive(c, live) && Sound(c, s)
    requires !Named(Opened(logs, s.openName), s.compactName) && s.fault == NoFault
    requires forall i :: 0 <= i < |s.appends| ==> s.appends[i].fault == Appends
    requires fixed.Keys == live.Keys
    requires forall id :: id in live ==>
               if live[id].scope == s.scope
               then fixed[id] == live[id].(oldLocalPath := s.repair(live[id].oldLocalPath),
                                           newLocalPath := s.repair(live[id].newLocalPath))
               else fixed[id] == live[id]
    ensures ReplayFiles(c, After(c, logs, s), map[]) == Ok(Fold(EventsOfAppends(s.appends), fixed))
  {
    hide ReplayFiles, ValidCodec, AfterCompact, Opened, Sound, GoodLive, After, Clean, Kept, Fold;
    AllWhole(c, s.appends);
    SessionRepairs(c, logs, live, s, fixed);
  }

  // ---------------------------------------------------------------- whole lives

  /** Once it cannot be read, the journal stays so. */
  lemma {:induction false} StaysUnreadable(c: Codec, logs: seq<LogFile>, sessions: seq<Session>)
    requires ReplayFiles(c, logs, map[]) == Err
    ensures ReplayFiles(c, Life(c, logs, sessions), map[]) == Err
    decreases |sessions|
  {
    if sessions == [] {
    } else {
      hide ReplayFiles;
      OpenedSame(c, logs, sessions[0].openName);
      StaysUnreadable(c, After(c, logs, sessions[0]), sessions[1..]);
    }
  }

  lemma {:induction false} ToldSame(c: Codec, logs: seq<LogFile>, a: Live, b: Live, sessions: seq<Session>)
    requires SameRecords(a, b)
    ensures SameRecords(ToldAll(c, logs, a, sessions), ToldAll(c, logs, b, sessions))
    decreases |sessions|
  {
    if sessions == [] {
    } else {
      var s := sessions[0];
      FoldSame(Kept(c, Attempts(c, s.appends)), a, b);
      hide SameRecords, Goes;
      ToldSame(c, After(c, logs, s), Told(c, logs, a, s), Told(c, logs, b, s), sessions[1..]);
    }
  }

  lemma SameTransitive(a: Live, b: Live, c: Live)
    requires SameRecords(a, b) && SameRecords(b, c)
    ensures SameRecords(a, c)
  {
  }

  /** Through any number of sessions, each stopped at any byte of its compaction, between any two removals, or with any
      of its appends failing anywhere, a restore succeeds exactly when no append ever went through after one that had
      stopped inside its line; and then it returns exactly the events that were written whole, none twice or out of
      order, up to repaired local roots. */
  lemma {:induction false} JournalDurable(c: Codec, logs: seq<LogFile>, live: Live, sessions: seq<Session>)
    requires ValidCodec(c) && ReplayFiles(c, logs, map[]) == Ok(live) && GoodLive(c, live)
    requires forall i :: 0 <= i < |sessions| ==> Sound(c, sessions[i])
    ensures var result := ReplayFiles(c, Life(c, logs, sessions), map[]);
            && (result.Ok? <==> AllClean(c, logs, sessions))
            && (result.Ok? ==> SameRecords(result.live, ToldAll(c, logs, live, sessions)))
    decreases |sessions|
  {
    hide ReplayFiles, ValidCodec, GoodLive, After, Told, Sound, CleanSession, SameRecords;
    if sessions == [] {
      SameItself(live);
    } else {
      var s, rest := sessions[0], sessions[1..];
      SessionSafeIff(c, logs, live, s);
      var next := After(c, logs, s);
      if CleanSession(c, logs, s) {
        var found := ReplayFiles(c, next, map[]).live;
        JournalDurable(c, next, found, rest);
        ToldSame(c, next, found, Told(c, logs, live, s), rest);
        if AllClean(c, next, rest) {
          SameTransitive(ReplayFiles(c, Life(c, next, rest), map[]).live, ToldAll(c, next, found, rest),
                         ToldAll(c, logs, live, sessions));
        }
      } else {
        StaysUnreadable(c, next, rest);
      }
    }
  }

  /** When the local roots need no repair, the records are exactly as told. */
  lemma {:induction false} JournalExact(c: Codec, logs: seq<LogFile>, live: Live, sessions: seq<Session>)
    requires ValidCodec(c) && ReplayFiles(c, logs, map[]) == Ok(live) && GoodLive(c, live)
    requires forall i :: 0 <= i < |sessions| ==> Sound(c, sessions[i])
    requires forall i, p :: 0 <= i < |sessions| ==> sessions[i].repair(p) == p
    requires AllClean(c, logs, sessions)
    ensures ReplayFiles(c, Life(c, logs, sessions), map[]) == Ok(ToldAll(c, logs, live, sessions))
    decreases |sessions|
  {
    hide ReplayFiles, ValidCodec, GoodLive, After, Told, Sound, CleanSession, SameRecords;
    if sessions == [] {
    } else {
      var s, rest := sessions[0], sessions[1..];
      SessionSafeIff(c, logs, live, s);
      NoRepair(live, s);
      assert forall i :: 0 <= i < |rest| ==> rest[i] == sessions[i + 1];
      JournalExact(c, After(c, logs, s), Told(c, logs, live, s), rest);
    }
  }

  lemma NoRepair(live: Live, s: Session)
    requires forall p :: s.repair(p) == p
    ensures Repaired(live, s) == live
  {
  }
}
