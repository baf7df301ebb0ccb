/** The log directory: replay over several files, and compaction into one. */
module MutationStore {
  import opened MutationLog
  import opened Wrappers

  /** A log file. Only the order of names matters, so a name is its rank in the directory listing. */
  datatype LogFile = LogFile(name: int, text: string)

  predicate Sorted(logs: seq<LogFile>) {
    forall i, j :: 0 <= i < j < |logs| ==> logs[i].name < logs[j].name
  }

  function ReplayFiles(c: Codec, logs: seq<LogFile>, live: Live): Result {
    if logs == [] then Ok(live)
    else match ReplayText(c, logs[0].text, live)
      case Err => Err
      case Ok(next) => ReplayFiles(c, logs[1..], next)
  }

  /** The position of `name` in the listing. */
  function Rank(logs: seq<LogFile>, name: int): (i: nat)
    ensures i <= |logs|
    ensures forall j :: 0 <= j < i ==> logs[j].name < name
    ensures i < |logs| ==> name <= logs[i].name
  {
    if logs == [] || name <= logs[0].name then 0 else 1 + Rank(logs[1..], name)
  }

  /** The stale logs still there, by their place before or after the new file's name. */
  function Older(logs: seq<LogFile>, name: int, removed: nat): seq<LogFile>
    requires removed <= |logs|
  {
    if removed <= Rank(logs, name) then logs[removed..Rank(logs, name)] else []
  }

  function Newer(logs: seq<LogFile>, name: int, removed: nat): seq<LogFile>
    requires removed <= |logs|
  {
    logs[Max(Rank(logs, name), removed)..]
  }

  /** The directory once the compacted file `name` exists and the first `removed` stale logs are gone. */
  function Compacted(logs: seq<LogFile>, name: int, text: string, removed: nat): seq<LogFile>
    requires removed <= |logs|
  {
    Older(logs, name, removed) + [LogFile(name, text)] + Newer(logs, name, removed)
  }

  function Upserts(live: Live, ids: seq<string>): seq<Event>
    requires forall id :: id in ids ==> id in live
  {
    if ids == [] then [] else [UpsertEvent(live[ids[0]])] + Upserts(live, ids[1..])
  }

  // ---------------------------------------------------------------- the order of record IDs

  /** The order that sort.Strings sorts by. */
  predicate Below(a: string, b: string) {
    b != "" && (a == "" || a[0] < b[0] || (a[0] == b[0] && Below(a[1..], b[1..])))
  }

  lemma {:induction false} BelowTotal(a: string, b: string)
    ensures a == b || Below(a, b) || Below(b, a)
    ensures !(Below(a, b) && Below(b, a))
  {
    if a == "" || b == "" {
    } else {
      BelowTotal(a[1..], b[1..]);
      assert a == [a[0]] + a[1..] && b == [b[0]] + b[1..];
    }
  }

  lemma {:induction false} NotBelowItself(a: string)
    ensures !Below(a, a)
  {
    if a == "" {
    } else {
      NotBelowItself(a[1..]);
    }
  }

  lemma {:induction false} BelowTransitive(a: string, b: string, c: string)
    requires Below(a, b) && Below(b, c)
    ensures Below(a, c)
  {
    if a == "" {
    } else if a[0] == b[0] == c[0] {
      BelowTransitive(a[1..], b[1..], c[1..]);
    }
  }

  predicate Ascending(ids: seq<string>) {
    forall i, j :: 0 <= i < j < |ids| ==> Below(ids[i], ids[j])
  }

  ghost predicate Lists(ids: seq<string>, keys: set<string>) {
    Ascending(ids) && forall id :: id in ids <==> id in keys
  }

  /** A set is listed in one way only. */
  lemma {:induction false} ListedOnce(a: seq<string>, b: seq<string>, keys: set<string>)
    requires Lists(a, keys) && Lists(b, keys)
    ensures a == b
  {
    EmptyListed(a, keys);
    EmptyListed(b, keys);
    if a == [] {
    } else {
      SameFirst(a, b, keys);
      RestListed(a, keys);
      RestListed(b, keys);
      ListedOnce(a[1..], b[1..], keys - {a[0]});
      assert a == [a[0]] + a[1..] && b == [b[0]] + b[1..];
    }
  }

  lemma EmptyListed(ids: seq<string>, keys: set<string>)
    requires Lists(ids, keys)
    ensures ids == [] <==> keys == {}
  {
    if ids != [] {
      assert ids[0] in keys;
    }
    if id :| id in keys {
      assert id in ids;
    }
  }

  lemma SameFirst(a: seq<string>, b: seq<string>, keys: set<string>)
    requires Lists(a, keys) && Lists(b, keys) && a != [] && b != []
    ensures a[0] == b[0]
  {
    assert a[0] in keys && b[0] in keys;
    var i :| 0 <= i < |b| && b[i] == a[0];
    var j :| 0 <= j < |a| && a[j] == b[0];
    BelowTotal(a[0], b[0]);
  }

  lemma RestListed(a: seq<string>, keys: set<string>)
    requires Lists(a, keys) && a != []
    ensures Lists(a[1..], keys - {a[0]})
  {
    forall i | 0 < i < |a|
      ensures a[i] != a[0]
    {
      NotBelowItself(a[0]);
    }
    assert forall id :: id in a <==> id == a[0] || id in a[1..];
  }

  /** Into an ascending list, behind all that are below. */
  function Inserted(ids: seq<string>, id: string): seq<string> {
    if ids == [] || !Below(ids[0], id) then [id] + ids else [ids[0]] + Inserted(ids[1..], id)
  }

  lemma {:induction false} InsertLists(ids: seq<string>, keys: set<string>, id: string)
    requires Lists(ids, keys) && id !in keys
    ensures Lists(Inserted(ids, id), keys + {id})
  {
    if ids == [] {
    } else {
      BelowTotal(ids[0], id);
      assert ids[0] in keys;
      if !Below(ids[0], id) {
        forall j | 0 <= j < |ids|
          ensures Below(id, ids[j])
        {
          if j > 0 {
            BelowTransitive(id, ids[0], ids[j]);
          }
        }
      } else {
        RestListed(ids, keys);
        InsertLists(ids[1..], keys - {ids[0]}, id);
        var rest := Inserted(ids[1..], id);
        assert keys - {ids[0]} + {id} + {ids[0]} == keys + {id};
        forall j | 0 <= j < |rest|
          ensures Below(ids[0], rest[j])
        {
          assert rest[j] in keys - {ids[0]} + {id};
          if rest[j] != id {
            var i :| 0 <= i < |ids| && ids[i] == rest[j];
            assert i > 0;
          }
        }
      }
    }
  }

  /** The record IDs in ascending order. */
  ghost function SortedIDs(keys: set<string>): (ids: seq<string>)
    ensures Lists(ids, keys)
  {
    if keys == {} then []
    else
      var id :| id in keys;
      InsertLists(SortedIDs(keys - {id}), keys - {id}, id);
      assert keys - {id} + {id} == keys;
      Inserted(SortedIDs(keys - {id}), id)
  }

  /** A live map as Compact writes it. */
  ghost function CompactText(c: Codec, live: Live): string {
    LogText(c, Upserts(live, SortedIDs(live.Keys)))
  }

  // ---------------------------------------------------------------- the store

  predicate Named(logs: seq<LogFile>, name: int) {
    exists i :: 0 <= i < |logs| && logs[i].name == name
  }

  /** Opening a log creates an empty one unless one of that name is there. */
  function Opened(logs: seq<LogFile>, name: int): seq<LogFile> {
    if Named(logs, name) then logs
    else var i := Rank(logs, name); logs[..i] + [LogFile(name, "")] + logs[i..]
  }

  /** How an append may fail: before the log is open, inside the line, or once all of it is written. */
  datatype AppendFault = Appends | OpenFails | WriteStops(bytes: nat) | SyncFails

  /** The bytes of its line that get out. */
  function Written(c: Codec, e: Event, fault: AppendFault): nat {
    match fault
    case OpenFails => 0
    case WriteStops(n) => n
    case _ => |c.encode(e)| + 1
  }

  /** The directory after an append to the log `name`. */
  function Appended(c: Codec, logs: seq<LogFile>, name: int, e: Event, fault: AppendFault): seq<LogFile> {
    if fault.OpenFails? then logs
    else AddedTo(Opened(logs, name), name, PieceOf(c, Attempt(e, Written(c, e, fault))))
  }

  function AddedTo(logs: seq<LogFile>, name: int, piece: string): seq<LogFile> {
    var i := Rank(logs, name);
    if i < |logs| && logs[i].name == name then logs[i := LogFile(name, logs[i].text + piece)] else logs
  }

  /** Where the disk or the process may stop a compaction. */
  datatype Fault =
    | NoFault
    | WriteError(bytes: nat)     // a write, flush or sync fails; the new file is removed again
    | CrashWriting(bytes: nat)   // the process dies after this many bytes of the new file
    | StopRemoving(count: nat)   // a removal fails, or the process dies, after this many removals

  /** The directory after a compaction; one whose file exists already does nothing. */
  ghost function AfterCompact(c: Codec, logs: seq<LogFile>, live: Live, name: int, fault: Fault): seq<LogFile> {
    var text := CompactText(c, live);
    if Named(logs, name) then logs
    else match fault
      case NoFault => Compacted(logs, name, text, |logs|)
      case WriteError(_) => logs
      case CrashWriting(n) => Compacted(logs, name, if n < |text| then text[..n] else text, 0)
      case StopRemoving(n) => Compacted(logs, name, text, if n < |logs| then n else |logs|)
  }

  class MutationStore {
    const codec: Codec
    var logs: seq<LogFile>
    var filePath: int

    ghost predicate Valid()
      reads this
    {
      Sorted(logs)
    }

    /** Opens the log of this process in a directory. */
    constructor (codec: Codec, logs: seq<LogFile>, filePath: int)
      requires Sorted(logs)
      ensures Valid() && this.codec == codec && this.logs == Opened(logs, filePath) && this.filePath == filePath
    {
      this.codec := codec;
      this.logs := Opened(logs, filePath);
      this.filePath := filePath;
      OpenedSorted(logs, filePath);
    }

    method Restore() returns (ok: bool, live: Live)
      ensures ReplayFiles(codec, logs, map[]) == if ok then Ok(live) else Err
    {
      live := map[];
      var i := 0;
      while i < |logs|
        invariant i <= |logs|
        invariant ReplayFiles(codec, logs, map[]) == ReplayFiles(codec, logs[i..], live)
      {
        assert logs[i..][1..] == logs[i + 1..];
        ok, live := RestoreMutationFile(codec, logs[i].text, live);
        if !ok {
          return;
        }
        i := i + 1;
      }
      ok := true;
    }

    /** Appends an event to the log of this process, which it creates if need be. */
    method AppendEvent(e: Event, fault: AppendFault) returns (ok: bool)
      requires Valid()
      modifies this`logs
      ensures Valid() && ok == fault.Appends? && logs == Appended(codec, old(logs), filePath, e, fault)
    {
      if fault.OpenFails? {
        return false;
      }
      hide Opened, Rank;
      OpenedSorted(logs, filePath);
      OpenedAt(logs, filePath);
      var dir := Opened(logs, filePath);
      var line := codec.encode(e) + "\n";
      var written := if fault.WriteStops? && fault.bytes < |line| then fault.bytes else |line|;
      assert line[..written] == PieceOf(codec, Attempt(e, Written(codec, e, fault)));
      var i := Rank(dir, filePath);
      AddedSorted(dir, filePath, line[..written]);
      logs := dir[i := LogFile(filePath, dir[i].text + line[..written])];
      ok := fault.Appends?;
    }

    /** Writes the live records to a new file, in the order of their IDs, and then removes every other log, oldest
        name first. */
    method Compact(live: Live, name: int, fault: Fault) returns (ok: bool)
      requires Valid()
      modifies this
      ensures Valid() && logs == AfterCompact(codec, old(logs), live, name, fault)
      ensures ok <==> !Named(old(logs), name) && (fault.NoFault? || (fault.StopRemoving? && fault.count >= |old(logs)|))
      ensures filePath == if !Named(old(logs), name) && (fault.NoFault? || fault.StopRemoving?) then name else old(filePath)
    {
      if Named(logs, name) {
        return false;
      }
      assert forall f :: f in logs ==> f.name != name;
      var text := EncodeLive(live);
      if fault.WriteError? {
        return false;
      }
      var i := Rank(logs, name);
      assert logs[0..i] == logs[..i];
      if fault.CrashWriting? {
        var n := if fault.bytes < |text| then fault.bytes else |text|;
        logs := logs[..i] + [LogFile(name, text[..n])] + logs[i..];
        assert text[..|text|] == text;
        CompactedSorted(old(logs), name, text[..n], 0);
        return false;
      }
      logs := logs[..i] + [LogFile(name, text)] + logs[i..];
      filePath := name;
      ok := RemoveStale(name, text, if fault.StopRemoving? then fault.count else |logs|, old(logs));
    }

    method EncodeLive(live: Live) returns (text: string)
      ensures text == CompactText(codec, live)
    {
      var ids := CollectIDs(live.Keys);
      ListedOnce(ids, SortedIDs(live.Keys), live.Keys);
      text := "";
      var i := 0;
      assert ids[..0] == [];
      while i < |ids|
        invariant i <= |ids| && forall id :: id in ids ==> id in live
        invariant text == LogText(codec, Upserts(live, ids[..i]))
      {
        hide Lists;
        UpsertsSnoc(codec, live, ids[..i], ids[i]);
        assert ids[..i + 1] == ids[..i] + [ids[i]];
        text := text + codec.encode(UpsertEvent(live[ids[i]])) + "\n";
        i := i + 1;
      }
      assert ids[..i] == ids;
    }

    method CollectIDs(keys: set<string>) returns (ids: seq<string>)
      ensures Lists(ids, keys)
    {
      hide Lists;
      ids := [];
      var left := keys;
      NoneListed();
      assert keys - left == {};
      while left != {}
        invariant left <= keys && Lists(ids, keys - left)
        decreases |left|
      {
        var id :| id in left;
        InsertLists(ids, keys - left, id);
        assert keys - left + {id} == keys - (left - {id});
        ids := Inserted(ids, id);
        left := left - {id};
      }
      assert keys - {} == keys;
    }

    /** The cleanup loop: removes at most `limit` of the logs listed beside the compacted file. */
    method RemoveStale(name: int, text: string, limit: nat, ghost stale: seq<LogFile>) returns (ok: bool)
      requires Sorted(stale) && forall f :: f in stale ==> f.name != name
      requires logs == Compacted(stale, name, text, 0)
      modifies this`logs
      ensures ok <==> |stale| <= limit
      ensures logs == Compacted(stale, name, text, if limit < |stale| then limit else |stale|) && Sorted(logs)
    {
      hide Without, Sorted, Compacted, Rank;
      CompactedSorted(stale, name, text, 0);
      ghost var i := Rank(stale, name);
      CompactedLength(stale, name, text);
      var files, removed, k := logs, 0, 0;
      while k < |files|
        invariant k <= |files| == |stale| + 1
        invariant removed == if k <= i then k else k - 1
        invariant removed <= |stale| && removed <= limit
        invariant logs == Compacted(stale, name, text, removed) && Sorted(logs)
      {
        CompactedAt(stale, name, text, k);
        if files[k].name != name {
          if removed == limit {
            return false;
          }
          RemoveNext(stale, name, text, removed);
          logs := Without(logs, files[k].name);
          removed := removed + 1;
        }
        k := k + 1;
      }
      ok := true;
    }
  }

  lemma AddedSorted(logs: seq<LogFile>, name: int, piece: string)
    requires Sorted(logs)
    ensures Sorted(AddedTo(logs, name, piece))
  {
  }

  lemma NoneListed()
    ensures Lists([], {})
  {
  }

  lemma OpenedAt(logs: seq<LogFile>, name: int)
    requires Sorted(logs)
    ensures var dir := Opened(logs, name); Rank(dir, name) < |dir| && dir[Rank(dir, name)].name == name
    ensures Named(logs, name) ==> Rank(logs, name) < |logs| && logs[Rank(logs, name)].name == name
  {
    OpenedSorted(logs, name);
    var dir := Opened(logs, name);
    assert Named(dir, name) by {
      if !Named(logs, name) {
        assert dir[Rank(logs, name)].name == name;
      }
    }
    NamedAt(dir, name);
    if Named(logs, name) {
      NamedAt(logs, name);
    }
  }

  lemma NamedAt(logs: seq<LogFile>, name: int)
    requires Sorted(logs) && Named(logs, name)
    ensures Rank(logs, name) < |logs| && logs[Rank(logs, name)].name == name
  {
    var i :| 0 <= i < |logs| && logs[i].name == name;
  }

  lemma OpenedSorted(logs: seq<LogFile>, name: int)
    requires Sorted(logs)
    ensures Sorted(Opened(logs, name))
  {
    if !Named(logs, name) {
      var i := Rank(logs, name);
      assert i < |logs| ==> logs[i].name != name;
      SortedMiddle(logs[..i], LogFile(name, ""), logs[i..]);
    }
  }

  lemma CompactedLength(stale: seq<LogFile>, name: int, text: string)
    ensures |Compacted(stale, name, text, 0)| == |stale| + 1
  {
  }

  lemma CompactedAt(stale: seq<LogFile>, name: int, text: string, k: nat)
    requires k <= |stale|
    ensures var i, files := Rank(stale, name), Compacted(stale, name, text, 0);
            |files| == |stale| + 1
            && files[k] == if k < i then stale[k] else if k == i then LogFile(name, text) else stale[k - 1]
  {
  }

  /** Removing one file by name. */
  function Without(logs: seq<LogFile>, name: int): seq<LogFile> {
    if logs == [] then [] else if logs[0].name == name then logs[1..] else [logs[0]] + Without(logs[1..], name)
  }

  lemma {:induction false} WithoutAt(logs: seq<LogFile>, i: nat)
    requires i < |logs| && Sorted(logs)
    ensures Without(logs, logs[i].name) == logs[..i] + logs[i + 1..]
  {
    if i == 0 {
    } else {
      assert logs[0].name < logs[i].name && logs[i] == logs[1..][i - 1];
      WithoutAt(logs[1..], i - 1);
      assert [logs[0]] + (logs[1..][..i - 1] + logs[1..][i..]) == logs[..i] + logs[i + 1..];
    }
  }

  lemma SortedMiddle(a: seq<LogFile>, x: LogFile, b: seq<LogFile>)
    requires Sorted(a) && Sorted(b)
    requires forall i :: 0 <= i < |a| ==> a[i].name < x.name
    requires forall i :: 0 <= i < |b| ==> x.name < b[i].name
    ensures Sorted(a + [x] + b)
  {
    var s := a + [x] + b;
    forall i, j | 0 <= i < j < |s|
      ensures s[i].name < s[j].name
    {
      assert i < |a| ==> s[i] == a[i];
      assert j > |a| ==> s[j] == b[j - |a| - 1];
      assert i > |a| ==> s[i] == b[i - |a| - 1];
    }
  }

  lemma CompactedSorted(logs: seq<LogFile>, name: int, text: string, removed: nat)
    requires Sorted(logs) && removed <= |logs| && forall f :: f in logs ==> f.name != name
    ensures Sorted(Compacted(logs, name, text, removed))
  {
    var i := Rank(logs, name);
    var before := if removed <= i then logs[removed..i] else [];
    var after := logs[Max(i, removed)..];
    if i < |logs| {
      assert logs[i] in logs;
    }
    SortedMiddle(before, LogFile(name, text), after);
  }

  lemma RemoveNext(logs: seq<LogFile>, name: int, text: string, removed: nat)
    requires Sorted(logs) && removed < |logs| && forall f :: f in logs ==> f.name != name
    ensures Sorted(Compacted(logs, name, text, removed + 1))
    ensures Without(Compacted(logs, name, text, removed), logs[removed].name) == Compacted(logs, name, text, removed + 1)
  {
    hide Without, Sorted, Rank;
    var before := Compacted(logs, name, text, removed);
    CompactedSorted(logs, name, text, removed);
    CompactedSorted(logs, name, text, removed + 1);
    var i := Rank(logs, name);
    if removed < i {
      WithoutAt(before, 0);
    } else {
      assert before[1] == logs[removed];
      WithoutAt(before, 1);
    }
  }

  lemma {:induction false} UpsertsSnoc(c: Codec, live: Live, ids: seq<string>, id: string)
    requires (forall i :: i in ids ==> i in live) && id in live
    ensures Upserts(live, ids + [id]) == Upserts(live, ids) + [UpsertEvent(live[id])]
    ensures LogText(c, Upserts(live, ids + [id]))
         == LogText(c, Upserts(live, ids)) + c.encode(UpsertEvent(live[id])) + "\n"
  {
    LogTextSnoc(c, Upserts(live, ids), UpsertEvent(live[id]));
    hide LogText;
    if ids == [] {
      assert ids + [id] == [id];
      assert Upserts(live, [id])[1..] == [];
    } else {
      assert (ids + [id])[0] == ids[0] && (ids + [id])[1..] == ids[1..] + [id];
      UpsertsSnoc(c, live, ids[1..], id);
    }
  }

  // ---------------------------------------------------------------- the effect of a history on one record

  function Lookup(live: Live, id: string): Option<Record> {
    if id in live then Some(live[id]) else None
  }

  /** The last word of a history on `id`: None if it never mentions it, else its final record or absence. */
  function Touch(es: seq<Event>, id: string): Option<Option<Record>> {
    if es == [] then None
    else if Touch(es[1..], id).Some? then Touch(es[1..], id)
    else if es[0].record.id != id || id == "" || !Replayable(es[0]) then None
    else Some(if es[0].kind == "upsert" then Some(es[0].record) else None)
  }

  lemma {:induction false} FoldAt(es: seq<Event>, live: Live, id: string)
    requires "" !in live
    ensures "" !in Fold(es, live)
    ensures Lookup(Fold(es, live), id)
         == match Touch(es, id) case Some(last) => last case None => Lookup(live, id)
  {
    if es == [] {
    } else {
      FoldAt(es[1..], Effect(es[0], live), id);
    }
  }

  lemma {:induction false} TouchConcat(a: seq<Event>, b: seq<Event>, id: string)
    ensures Touch(a + b, id) == if Touch(b, id).Some? then Touch(b, id) else Touch(a, id)
  {
    if a == [] {
      assert a + b == b;
    } else {
      assert (a + b)[1..] == a[1..] + b;
      TouchConcat(a[1..], b, id);
    }
  }

  lemma {:induction false} TouchUpserts(live: Live, ids: seq<string>, id: string)
    requires forall i :: i in ids ==> i in live && live[i].id == i && Replayable(UpsertEvent(live[i]))
    ensures Touch(Upserts(live, ids), id) == if id in ids then Some(Some(live[id])) else None
  {
    if ids == [] {
    } else {
      TouchUpserts(live, ids[1..], id);
    }
  }

  // ---------------------------------------------------------------- several files as one history

  type Reader = LogFile -> Option<seq<Event>>

  function ReaderOf(c: Codec): Reader {
    (log: LogFile) => EventsOf(c, log.text)
  }

  function Parse(read: Reader, logs: seq<LogFile>): (parts: seq<Option<seq<Event>>>)
    ensures |parts| == |logs| && forall i :: 0 <= i < |logs| ==> parts[i] == read(logs[i])
  {
    seq(|logs|, i requires 0 <= i < |logs| => read(logs[i]))
  }

  function Flat(parts: seq<Option<seq<Event>>>): Option<seq<Event>> {
    if parts == [] then Some([])
    else match parts[0]
      case None => None
      case Some(es) => Prepend(es, Flat(parts[1..]))
  }

  lemma {:induction false} ReplayFilesIsFold(c: Codec, logs: seq<LogFile>, live: Live)
    ensures ReplayFiles(c, logs, live)
         == match Flat(Parse(ReaderOf(c), logs)) case None => Err case Some(es) => Ok(Fold(es, live))
  {
    if logs == [] {
    } else {
      ReplayTextIsFold(c, logs[0].text, live);
      assert Parse(ReaderOf(c), logs)[1..] == Parse(ReaderOf(c), logs[1..]);
      match EventsOf(c, logs[0].text)
      case None =>
      case Some(es) =>
        ReplayFilesIsFold(c, logs[1..], Fold(es, live));
        match Flat(Parse(ReaderOf(c), logs[1..]))
        case None =>
        case Some(more) => FoldConcat(es, more, live);
    }
  }

  lemma {:induction false} FlatConcat(a: seq<Option<seq<Event>>>, b: seq<Option<seq<Event>>>)
    ensures Flat(a + b) == match Flat(a) case None => None case Some(es) => Prepend(es, Flat(b))
  {
    if a == [] {
      assert a + b == b;
      assert forall more: seq<Event> :: [] + more == more;
    } else {
      assert (a + b)[0] == a[0] && (a + b)[1..] == a[1..] + b;
      FlatConcat(a[1..], b);
      if a[0].Some? && Flat(a[1..]).Some? && Flat(b).Some? {
        assert a[0].value + (Flat(a[1..]).value + Flat(b).value) == a[0].value + Flat(a[1..]).value + Flat(b).value;
      }
    }
  }

  ghost predicate GoodLive(c: Codec, live: Live) {
    forall id :: id in live ==> live[id].id == id && Writable(c, UpsertEvent(live[id]))
  }

  /** Any prefix of the compacted file reads as the upserts of a prefix of its records. */
  lemma {:induction false} EventsOfPartialFile(c: Codec, live: Live, ids: seq<string>, n: nat) returns (q: nat)
    requires ValidCodec(c) && GoodLive(c, live) && forall id :: id in ids ==> id in live
    requires n <= |LogText(c, Upserts(live, ids))|
    ensures q <= |ids| && (n == |LogText(c, Upserts(live, ids))| ==> q == |ids|)
    ensures EventsOf(c, LogText(c, Upserts(live, ids))[..n]) == Some(Upserts(live, ids[..q]))
  {
    hide LogText, EventsOf, ValidCodec, Writable;
    EmptyLog(c);
    if ids == [] {
      q := 0;
    } else {
      var e := UpsertEvent(live[ids[0]]);
      var line, rest := c.encode(e) + "\n", LogText(c, Upserts(live, ids[1..]));
      LogTextCons(c, e, Upserts(live, ids[1..]));
      var text := (line + rest)[..n];
      if n < |line| {
        assert text == Torn(c, e, n);
        TornUpsert(c, e, n);
        q := if n == |c.encode(e)| then 1 else 0;
        assert ids[..q] == if q == 1 then [ids[0]] else [];
        assert Upserts(live, [ids[0]]) == [e];
      } else {
        assert text == line + rest[..n - |line|];
        var r := EventsOfPartialFile(c, live, ids[1..], n - |line|);
        EventsOfLineAnd(c, e, rest[..n - |line|], Upserts(live, ids[1..][..r]));
        q := r + 1;
        assert ids[..q][0] == ids[0] && ids[..q][1..] == ids[1..][..r];
      }
    }
  }

  lemma EmptyLog(c: Codec)
    ensures LogText(c, []) == "" && EventsOf(c, "") == Some([])
  {
  }

  lemma TornUpsert(c: Codec, e: Event, n: nat)
    requires ValidCodec(c) && Writable(c, e) && n <= |c.encode(e)|
    ensures EventsOf(c, Torn(c, e, n)) == Some(if n == |c.encode(e)| then [e] else [])
  {
    EventsOfTornLine(c, e, n);
  }

  lemma EventsOfLineAnd(c: Codec, e: Event, tail: string, more: seq<Event>)
    requires ValidCodec(c) && Writable(c, e) && EventsOf(c, tail) == Some(more)
    ensures EventsOf(c, c.encode(e) + "\n" + tail) == Some([e] + more)
  {
    hide LogText, Writable, ValidCodec, DecodeLine;
    OneLineLog(c, e);
    EventsAfterLog(c, [e], tail);
    Termination(c.encode(e) + "\n", tail);
  }

  /** The record of one ID after a crash: `gone` were the events of removed logs, `before` and `after` those of
      the stale logs still there, and `written` the part of the live map in the new file. */
  lemma RecordAfterCrash(gone: seq<Event>, before: seq<Event>, after: seq<Event>, live: Live, written: seq<string>,
                         total: Live, id: string)
    requires total == Fold(gone + (before + after), map[])
    requires live.Keys == total.Keys && (gone != [] ==> forall i :: i in live ==> i in written)
    requires forall i :: i in written ==> i in live && live[i].id == i && Replayable(UpsertEvent(live[i]))
    ensures var now := Lookup(Fold(before + (Upserts(live, written) + after), map[]), id);
            && (now == Lookup(total, id) || now == Lookup(live, id))
            && (now.Some? <==> id in total)
            && (before == [] && after == [] && (id in live ==> id in written) ==> now == Lookup(live, id))
  {
    var ups := Upserts(live, written);
    FoldAt(before + (ups + after), map[], id);
    FoldAt(gone + (before + after), map[], id);
    TouchConcat(before, ups + after, id);
    TouchConcat(ups, after, id);
    TouchConcat(gone, before + after, id);
    TouchConcat(before, after, id);
    TouchUpserts(live, written, id);
  }

  /** A crash state as three histories around the new file: removed logs, older names, newer names. */
  lemma SplitFiles(c: Codec, logs: seq<LogFile>, name: int, text: string, removed: nat, written: seq<Event>)
    returns (gone: seq<Event>, before: seq<Event>, after: seq<Event>)
    requires Flat(Parse(ReaderOf(c), logs)).Some? && EventsOf(c, text) == Some(written) && removed <= |logs|
    ensures Flat(Parse(ReaderOf(c), logs)).value == gone + (before + after)
    ensures Flat(Parse(ReaderOf(c), Compacted(logs, name, text, removed))) == Some(before + (written + after))
    ensures removed == 0 ==> gone == []
    ensures removed == |logs| ==> before == [] && after == []
  {
    var read := ReaderOf(c);
    ParseCompacted(read, logs, name, text, removed);
    gone, before, after := FlatAround(Parse(read, logs[..removed]), Parse(read, Older(logs, name, removed)),
                                      Parse(read, Newer(logs, name, removed)), written);
  }

  lemma ParseConcat(read: Reader, a: seq<LogFile>, b: seq<LogFile>)
    ensures Parse(read, a + b) == Parse(read, a) + Parse(read, b)
  {
  }

  lemma OlderNewer(logs: seq<LogFile>, name: int, removed: nat)
    requires removed <= |logs|
    ensures logs[..removed] + (Older(logs, name, removed) + Newer(logs, name, removed)) == logs
  {
    var i := Rank(logs, name);
    if removed <= i {
      assert logs[removed..i] + logs[i..] == logs[removed..];
    } else {
      assert [] + logs[removed..] == logs[removed..];
    }
  }

  lemma ParseCompacted(read: Reader, logs: seq<LogFile>, name: int, text: string, removed: nat)
    requires removed <= |logs|
    ensures var y, z := Parse(read, Older(logs, name, removed)), Parse(read, Newer(logs, name, removed));
            && Parse(read, logs) == Parse(read, logs[..removed]) + (y + z)
            && Parse(read, Compacted(logs, name, text, removed)) == y + ([read(LogFile(name, text))] + z)
  {
    OlderNewer(logs, name, removed);
    ParseThree(read, logs[..removed], Older(logs, name, removed), Newer(logs, name, removed));
    ParseAround(read, Older(logs, name, removed), LogFile(name, text), Newer(logs, name, removed));
  }

  lemma ParseThree(read: Reader, a: seq<LogFile>, b: seq<LogFile>, c: seq<LogFile>)
    ensures Parse(read, a + (b + c)) == Parse(read, a) + (Parse(read, b) + Parse(read, c))
  {
    ParseConcat(read, a, b + c);
    ParseConcat(read, b, c);
  }

  lemma ParseAround(read: Reader, a: seq<LogFile>, log: LogFile, b: seq<LogFile>)
    ensures Parse(read, a + [log] + b) == Parse(read, a) + ([read(log)] + Parse(read, b))
  {
    Assoc(a, [log], b);
    ParseThree(read, a, [log], b);
    assert Parse(read, [log]) == [read(log)];
  }

  lemma FlatAround(x: seq<Option<seq<Event>>>, y: seq<Option<seq<Event>>>, z: seq<Option<seq<Event>>>,
                   written: seq<Event>)
    returns (gone: seq<Event>, before: seq<Event>, after: seq<Event>)
    requires Flat(x + (y + z)).Some?
    ensures Flat(x) == Some(gone) && Flat(y) == Some(before) && Flat(z) == Some(after)
    ensures Flat(x + (y + z)) == Some(gone + (before + after))
    ensures Flat(y + ([Some(written)] + z)) == Some(before + (written + after))
  {
    FlatConcat(x, y + z);
    FlatConcat(y, z);
    FlatConcat(y, [Some(written)] + z);
    assert ([Some(written)] + z)[1..] == z;
    gone, before, after := Flat(x).value, Flat(y).value, Flat(z).value;
  }

  /** Compaction is crash-safe. However much of the new file is written, and however many stale logs are
      removed after it, oldest name first, a restore keeps exactly the pending records, each as it was or as
      rewritten; a finished compaction holds exactly the map it was given. */
  lemma CompactCrashSafe(c: Codec, logs: seq<LogFile>, total: Live, live: Live, ids: seq<string>,
                         name: int, n: nat, removed: nat)
    requires ValidCodec(c) && ReplayFiles(c, logs, map[]) == Ok(total)
    requires GoodLive(c, live) && live.Keys == total.Keys && forall id :: id in ids <==> id in live
    requires var size := |LogText(c, Upserts(live, ids))|; n <= size && (removed > 0 ==> n == size)
    requires removed <= |logs|
    ensures var text := LogText(c, Upserts(live, ids))[..n];
            var result := ReplayFiles(c, Compacted(logs, name, text, removed), map[]);
            && result.Ok? && result.live.Keys == total.Keys
            && (forall id :: id in total ==> result.live[id] in {total[id], live[id]})
            && (live == total ==> result.live == total)
            && (removed == |logs| && n == |LogText(c, Upserts(live, ids))| ==> result.live == live)
  {
    var text := LogText(c, Upserts(live, ids))[..n];
    var q := EventsOfPartialFile(c, live, ids, n);
    var written := ids[..q];
    assert n == |LogText(c, Upserts(live, ids))| ==> written == ids;
    ReplayFilesIsFold(c, logs, map[]);
    var gone, before, after := SplitFiles(c, logs, name, text, removed, Upserts(live, written));
    ReplayFilesIsFold(c, Compacted(logs, name, text, removed), map[]);
    var result := Fold(before + (Upserts(live, written) + after), map[]);
    var done := before == [] && after == [] && forall id :: id in live ==> id in written;
    forall id
      ensures Lookup(result, id) == Lookup(total, id) || Lookup(result, id) == Lookup(live, id)
      ensures Lookup(result, id).Some? <==> id in total
      ensures done ==> Lookup(result, id) == Lookup(live, id)
    {
      RecordAfterCrash(gone, before, after, live, written, total, id);
    }
    SameLookups(result, total, live, done);
  }

  lemma SameLookups(result: Live, total: Live, live: Live, done: bool)
    requires live.Keys == total.Keys
    requires forall id :: Lookup(result, id) == Lookup(total, id) || Lookup(result, id) == Lookup(live, id)
    requires forall id :: Lookup(result, id).Some? <==> id in total
    requires done ==> forall id :: Lookup(result, id) == Lookup(live, id)
    ensures result.Keys == total.Keys
    ensures forall id :: id in total ==> result[id] in {total[id], live[id]}
    ensures live == total ==> result == total
    ensures done ==> result == live
  {
    assert forall id :: id in result <==> Lookup(result, id).Some?;
    assert forall id :: id in result ==> Lookup(result, id) == Some(result[id]);
  }

  ghost predicate KeyedByID(live: Live) {
    forall id :: id in live ==> live[id].id == id && Replayable(UpsertEvent(live[id]))
  }

  lemma EffectKeyed(e: Event, live: Live)
    requires KeyedByID(live)
    ensures KeyedByID(Effect(e, live))
  {
    assert e.kind == "upsert" ==> UpsertEvent(e.record) == e;
  }

  /** What a restore returns is keyed by record ID and holds only replayable records. */
  lemma {:induction false} RestoredIsKeyed(es: seq<Event>, live: Live)
    requires KeyedByID(live)
    ensures KeyedByID(Fold(es, live))
  {
    if es == [] {
    } else {
      hide KeyedByID, Effect;
      EffectKeyed(es[0], live);
      RestoredIsKeyed(es[1..], Effect(es[0], live));
    }
  }

  lemma OneEventLog(c: Codec, name: int, e: Event, live: Live)
    requires ValidCodec(c) && Writable(c, e)
    ensures ReplayFiles(c, [LogFile(name, LogText(c, [e]))], live) == Ok(Effect(e, live))
  {
    var log := LogFile(name, LogText(c, [e]));
    AppendAtomic(c, [e], e, 0, live);
    assert log.text + (c.encode(e) + "\n")[..0] == log.text;
    assert [e][1..] == [] && [log][1..] == [];
  }

  /** The removal order matters: dropping a later log first brings a completed mutation back. */
  lemma LaterLogFirstResurrects(c: Codec, r: Record)
    requires ValidCodec(c) && Writable(c, UpsertEvent(r)) && Writable(c, CompleteEvent(r.id))
    ensures var first := LogFile(1, LogText(c, [UpsertEvent(r)]));
            var second := LogFile(2, LogText(c, [CompleteEvent(r.id)]));
            var compacted := LogFile(3, LogText(c, Upserts(map[], [])));
            && ReplayFiles(c, [first, second], map[]) == Ok(map[])
            && ReplayFiles(c, [first, compacted], map[]) == Ok(map[r.id := r])
  {
    var first := LogFile(1, LogText(c, [UpsertEvent(r)]));
    var second := LogFile(2, LogText(c, [CompleteEvent(r.id)]));
    var compacted := LogFile(3, "");
    OneEventLog(c, 1, UpsertEvent(r), map[]);
    OneEventLog(c, 2, CompleteEvent(r.id), map[r.id := r]);
    assert map[r.id := r] - {r.id} == map[];
    assert [first][1..] == [] && [first, second][1..] == [second];
    assert [first, compacted][1..] == [compacted] && [compacted][1..] == [];
  }

  lemma UpsertsRestore(c: Codec, live: Live, ids: seq<string>)
    requires GoodLive(c, live) && forall id :: id in ids <==> id in live
    ensures Fold(Upserts(live, ids), map[]) == live
  {
    var back := Fold(Upserts(live, ids), map[]);
    forall id
      ensures Lookup(back, id) == Lookup(live, id)
    {
      FoldAt(Upserts(live, ids), map[], id);
      TouchUpserts(live, ids, id);
    }
    assert forall id :: (id in back <==> Lookup(back, id).Some?) && (id in live <==> Lookup(live, id).Some?);
    assert forall id :: id in back ==> Some(back[id]) == Lookup(back, id) == Lookup(live, id) == Some(live[id]);
  }

  /** After a finished compaction the process appends to the new file: a restore gives the compacted map with the
      events that were written whole on top, or fails because one went through after a torn one. */
  lemma AttemptsAfterCompact(c: Codec, live: Live, attempts: seq<Attempt>)
    requires ValidCodec(c) && GoodLive(c, live) && AttemptsFit(c, attempts)
    ensures ReplayText(c, CompactText(c, live) + AttemptText(c, attempts), map[])
         == if Clean(c, attempts) then Ok(Fold(Kept(c, attempts), live)) else Err
  {
    var ids := SortedIDs(live.Keys);
    var ups, text := Upserts(live, ids), CompactText(c, live) + AttemptText(c, attempts);
    UpsertsWritable(c, live, ids);
    AttemptsReadIff(c, ups, attempts);
    ReplayTextIsFold(c, text, map[]);
    FoldConcat(ups, Kept(c, attempts), map[]);
    UpsertsRestore(c, live, ids);
  }

  lemma {:induction false} UpsertsWritable(c: Codec, live: Live, ids: seq<string>)
    requires GoodLive(c, live) && forall id :: id in ids ==> id in live
    ensures AllWritable(c, Upserts(live, ids))
  {
    if ids == [] {
    } else {
      UpsertsWritable(c, live, ids[1..]);
    }
  }
}
