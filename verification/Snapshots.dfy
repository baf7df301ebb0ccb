/** Continuation tokens of the form m:ID:OFFSET, as object_page_snapshots.go writes and reads them. */
module SnapshotTokens {
  import opened Decimals
  import opened RawPaths
  import opened Wrappers

  const UINT64_LIMIT := 0x1_0000_0000_0000_0000
  const INT_LIMIT := 0x8000_0000_0000_0000

  function ParseUint(s: string): Option<nat> {
    match ParseDigits(s)
    case Some(n) => if n < UINT64_LIMIT then Some(n) else None
    case None => None
  }

  /** A decimal number with an optional sign, in the range of a machine integer. */
  function Atoi(s: string): Option<int> {
    var minus := s != "" && s[0] == '-';
    match ParseDigits(if minus || (s != "" && s[0] == '+') then s[1..] else s)
    case None => None
    case Some(n) =>
      var value := (if minus then -1 else 1) * n;
      if -INT_LIMIT <= value < INT_LIMIT then Some(value) else None
  }

  function Split(s: string, sep: char): (parts: seq<string>)
    ensures parts != []
  {
    if s == "" then [""]
    else
      var rest := Split(s[1..], sep);
      if s[0] == sep then [""] + rest else [[s[0]] + rest[0]] + rest[1..]
  }

  lemma {:induction false} SplitAt(a: string, b: string, sep: char)
    requires sep !in a
    ensures Split(a + [sep] + b, sep) == [a] + Split(b, sep)
  {
    var s := a + [sep] + b;
    if a == "" {
      assert s[1..] == b;
    } else {
      assert s[1..] == a[1..] + [sep] + b;
      SplitAt(a[1..], b, sep);
      assert [a[0]] + a[1..] == a && s[0] == a[0] != sep;
      assert ([a[1..]] + Split(b, sep))[1..] == Split(b, sep);
    }
  }

  lemma {:induction false} SplitNone(a: string, sep: char)
    requires sep !in a
    ensures Split(a, sep) == [a]
  {
    if a == "" {
    } else {
      SplitNone(a[1..], sep);
      assert [a[0]] + a[1..] == a && a[0] != sep;
    }
  }

  datatype Token = Token(id: nat, offset: nat)

  function Format(t: Token): string {
    "m" + ":" + (Decimal(t.id) + ":" + Decimal(t.offset))
  }

  function Parse(text: string): Option<Token> {
    var parts := Split(TrimSpace(text), ':');
    if |parts| != 3 || parts[0] != "m" then None
    else
      var id, offset := ParseUint(parts[1]), Atoi(parts[2]);
      if id.None? || offset.None? || id.value == 0 || offset.value < 0 then None else Some(Token(id.value, offset.value))
  }

  function TokenOffset(text: string): nat {
    match Parse(text)
    case Some(t) => t.offset
    case None =>
      var offset := Atoi(TrimSpace(text));
      if offset.None? || offset.value < 0 then 0 else offset.value
  }

  predicate InRange(t: Token) {
    0 < t.id < UINT64_LIMIT && t.offset < INT_LIMIT
  }

  /** A token parses back to what was formatted, exactly when it is in the machine's range. */
  lemma TokenRoundTripIff(t: Token)
    ensures Parse(Format(t)) == if InRange(t) then Some(t) else None
  {
    hide Decimal, ParseDigits, Split, TrimSpace, IsSpace;
    var text, id, offset := Format(t), Decimal(t.id), Decimal(t.offset);
    DecimalParses(t.id);
    DecimalParses(t.offset);
    FormatTight(t);
    SplitAt("m", id + ":" + offset, ':');
    SplitAt(id, offset, ':');
    SplitNone(offset, ':');
    assert Split(text, ':') == ["m", id, offset];
    assert IsDigit(offset[0]);
  }

  lemma TokenRoundTrip(t: Token)
    requires InRange(t)
    ensures Parse(Format(t)) == Some(t) && TokenOffset(Format(t)) == t.offset
  {
    hide Parse, Format;
    TokenRoundTripIff(t);
  }

  /** Nothing but an m in front makes a token. */
  lemma ForeignToken(kind: string, t: Token)
    requires kind != "m" && ':' !in kind && kind != "" && !IsSpace(kind[0])
    ensures Parse(kind + ":" + (Decimal(t.id) + ":" + Decimal(t.offset))) == None
  {
    hide Decimal, ParseDigits, Split, TrimSpace, IsSpace;
    var id, offset := Decimal(t.id), Decimal(t.offset);
    var text := kind + ":" + (id + ":" + offset);
    TextTight(text) by {
      assert text[|text| - 1] == offset[|offset| - 1] && text[0] == kind[0];
    }
    SplitAt(kind, id + ":" + offset, ':');
    SplitAt(id, offset, ':');
    SplitNone(offset, ':');
    assert Split(text, ':') == [kind, id, offset];
  }

  lemma TextTight(text: string)
    requires text != "" && IsDigit(text[|text| - 1]) && !IsSpace(text[0])
    ensures TrimSpace(text) == text
  {
    assert forall c :: IsDigit(c) ==> !IsSpace(c);
    TrimTight(text, IsSpace);
  }

  /** A bare number is taken for an offset if it is in range; a sign is allowed, and a negative one stands for 0. */
  lemma PlainOffset(n: nat)
    ensures TokenOffset(Decimal(n)) == TokenOffset("+" + Decimal(n)) == if n < INT_LIMIT then n else 0
    ensures TokenOffset("-" + Decimal(n)) == 0
  {
    hide Decimal, ParseDigits, Split, TrimSpace, IsSpace;
    var text := Decimal(n);
    DecimalParses(n);
    assert IsDigit(text[0]) && ("+" + text)[1..] == text && ("-" + text)[1..] == text;
    NumberTight(text);
    NumberTight("+" + text);
    NumberTight("-" + text);
    SplitNone(text, ':');
    SplitNone("+" + text, ':');
    SplitNone("-" + text, ':');
  }

  lemma NumberTight(text: string)
    requires text != "" && IsDigit(text[|text| - 1]) && (IsDigit(text[0]) || text[0] in {'+', '-'})
    ensures TrimSpace(text) == text
  {
    assert forall c :: IsDigit(c) || c in {'+', '-'} ==> !IsSpace(c);
    TrimTight(text, IsSpace);
  }

  lemma FormatTight(t: Token)
    ensures TrimSpace(Format(t)) == Format(t)
  {
    var text, offset := Format(t), Decimal(t.offset);
    assert forall c :: IsDigit(c) ==> !IsSpace(c);
    assert text[0] == 'm' && text[|text| - 1] == offset[|offset| - 1];
    TrimTight(text, IsSpace);
  }
}

/** The paged directory snapshots of object_page_snapshots.go. */
module Snapshots {
  import opened SnapshotTokens
  import opened Wrappers

  const MAX_SNAPSHOTS := 16
  const TTL := 120_000_000_000
  const DEFAULT_PAGE := 200

  type Item = string

  datatype Snapshot = Snapshot(prefix: string, items: seq<Item>, createdAt: int, expiresAt: int)

  datatype Page = Page(items: seq<Item>, nextToken: string)

  datatype Store = Store(nextID: nat, byID: map<nat, Snapshot>)

  const EMPTY := Store(0, map[])

  function Paginate(id: nat, items: seq<Item>, offset: nat, pageSize: int): Page {
    var size := if pageSize <= 0 then DEFAULT_PAGE else pageSize;
    if offset >= |items| then Page([], "")
    else
      var end := if offset + size > |items| then |items| else offset + size;
      Page(items[offset..end], if end < |items| then Format(Token(id, end)) else "")
  }

  function Pruned(byID: map<nat, Snapshot>, now: int): map<nat, Snapshot> {
    map id | id in byID && now <= byID[id].expiresAt :: byID[id]
  }

  /** Later IDs were created later, and none is beyond the last one given out. */
  ghost predicate Valid(s: Store) {
    && (forall id :: id in s.byID ==> 0 < id <= s.nextID)
    && forall a, b :: a in s.byID && b in s.byID && a < b ==> s.byID[a].createdAt < s.byID[b].createdAt
  }

  ghost predicate Before(s: Store, now: int) {
    forall id :: id in s.byID ==> s.byID[id].createdAt < now
  }

  function Newer(byID: map<nat, Snapshot>, id: nat): set<nat> {
    set j | j in byID && j > id
  }

  /** The snapshots that fewer than 16 newer ones have pushed out. */
  function Newest(byID: map<nat, Snapshot>): map<nat, Snapshot> {
    map id | id in byID && |Newer(byID, id)| < MAX_SNAPSHOTS :: byID[id]
  }

  function Started(s: Store, prefix: string, items: seq<Item>, now: int): Store {
    var id := s.nextID + 1;
    Store(id, Newest(Pruned(s.byID, now)[id := Snapshot(prefix, items, now, now + TTL)]))
  }

  function PageOf(s: Store, prefix: string, token: string, pageSize: int, now: int): Option<Page> {
    match Parse(token)
    case None => None
    case Some(t) =>
      var byID := Pruned(s.byID, now);
      if t.id !in byID || byID[t.id].prefix != prefix then None
      else Some(Paginate(t.id, byID[t.id].items, t.offset, pageSize))
  }

  /** The store after a look for the token's snapshot. */
  function Looked(s: Store, token: string, now: int): Store {
    if Parse(token).None? then s else s.(byID := Pruned(s.byID, now))
  }

  datatype Answer = Answer(store: Store, page: Page)

  /** A listing request: a page of the snapshot that the token names, or else one at the token's offset in a new
      snapshot of the current listing. */
  function Listed(s: Store, prefix: string, token: string, pageSize: int, now: int, listing: seq<Item>): Answer {
    match PageOf(s, prefix, token, pageSize, now)
    case Some(page) => Answer(Looked(s, token, now), page)
    case None =>
      var started := Started(Looked(s, token, now), prefix, listing, now);
      Answer(started, Paginate(started.nextID, listing, TokenOffset(token), pageSize))
  }

  class MountedDirectoryPageSnapshots {
    var nextID: nat
    var byID: map<nat, Snapshot>

    ghost function State(): Store
      reads this
    {
      Store(nextID, byID)
    }

    constructor ()
      ensures State() == EMPTY
    {
      nextID, byID := 0, map[];
    }

    method PruneLocked(now: int)
      modifies this`byID
      ensures byID == Pruned(old(byID), now)
    {
      var todo := byID.Keys;
      while todo != {}
        invariant todo <= old(byID).Keys
        invariant byID == map id | id in old(byID) && (id in todo || now <= old(byID)[id].expiresAt) :: old(byID)[id]
        decreases |todo|
      {
        var id :| id in todo;
        todo := todo - {id};
        if now > byID[id].expiresAt {
          byID := byID - {id};
        }
      }
    }

    /** The scan keeps the first snapshot it sees until it finds an older one. */
    method Oldest() returns (oldest: nat)
      requires byID != map[] && Valid(State())
      ensures oldest in byID && forall id :: id in byID ==> oldest <= id
    {
      oldest := 0;
      var todo := byID.Keys;
      while todo != {}
        invariant todo <= byID.Keys && (oldest == 0 ==> todo == byID.Keys) && (oldest != 0 ==> oldest in byID)
        invariant forall id :: id in byID && id !in todo ==> oldest <= id
        decreases |todo|
      {
        var id :| id in todo;
        todo := todo - {id};
        if oldest == 0 || byID[id].createdAt < byID[oldest].createdAt {
          oldest := id;
        }
      }
    }

    method EvictOldestLocked()
      requires Valid(State())
      modifies this`byID
      ensures byID == Newest(old(byID)) && |byID| <= MAX_SNAPSHOTS
    {
      ghost var before := byID;
      while |byID| > MAX_SNAPSHOTS
        invariant Valid(State()) && Newest(byID) == Newest(before)
        decreases |byID|
      {
        var oldest := Oldest();
        DropOldest(byID, oldest);
        byID := byID - {oldest};
      }
      AllNewest(byID);
    }

    method Start(prefix: string, items: seq<Item>, requestedToken: string, pageSize: int, now: int) returns (page: Page)
      requires Valid(State()) && Before(State(), now)
      modifies this
      ensures Valid(State()) && State() == Started(old(State()), prefix, items, now) && |byID| <= MAX_SNAPSHOTS
      ensures page == Paginate(nextID, items, TokenOffset(requestedToken), pageSize)
    {
      hide Newest, Pruned, Valid, Before;
      StartKeeps(State(), prefix, items, now, 0);
      AddedValid(State(), prefix, items, now);
      PruneLocked(now);
      nextID := nextID + 1;
      byID := byID[nextID := Snapshot(prefix, items, now, now + TTL)];
      EvictOldestLocked();
      page := Paginate(nextID, items, TokenOffset(requestedToken), pageSize);
    }

    method ReadPage(prefix: string, token: string, pageSize: int, now: int) returns (page: Option<Page>)
      requires Valid(State())
      modifies this
      ensures Valid(State()) && page == PageOf(old(State()), prefix, token, pageSize, now)
      ensures State() == Looked(old(State()), token, now)
    {
      var parsed := Parse(token);
      if parsed.None? {
        return None;
      }
      PruneLocked(now);
      if parsed.value.id !in byID || byID[parsed.value.id].prefix != prefix {
        return None;
      }
      page := Some(Paginate(parsed.value.id, byID[parsed.value.id].items, parsed.value.offset, pageSize));
    }

    method ListPage(prefix: string, token: string, pageSize: int, now: int, listing: seq<Item>) returns (page: Page)
      requires Valid(State()) && Before(State(), now)
      modifies this
      ensures Valid(State()) && Answer(State(), page) == Listed(old(State()), prefix, token, pageSize, now, listing)
    {
      hide Valid, Before, Pruned, Started, PageOf, Parse;
      LookedKeeps(State(), token, now);
      var kept := ReadPage(prefix, token, pageSize, now);
      if kept.Some? {
        return kept.value;
      }
      page := Start(prefix, listing, token, pageSize, now);
      StartedID(Looked(old(State()), token, now), prefix, listing, now);
    }
  }

  lemma StartedID(s: Store, prefix: string, items: seq<Item>, now: int)
    ensures Started(s, prefix, items, now).nextID == s.nextID + 1
  {
  }

  lemma LookedKeeps(s: Store, token: string, now: int)
    requires Valid(s) && Before(s, now)
    ensures Valid(Looked(s, token, now)) && Before(Looked(s, token, now), now)
    ensures Looked(s, token, now).nextID == s.nextID
    ensures forall id :: id in Looked(s, token, now).byID ==> id in s.byID && Looked(s, token, now).byID[id] == s.byID[id]
    ensures forall id :: id in s.byID && now <= s.byID[id].expiresAt ==> id in Looked(s, token, now).byID
  {
  }

  /** A page comes from the snapshot that its token names, of the same directory and unexpired; a token of another
      directory's snapshot, or of none that is there, starts a new one of the current listing. */
  lemma PageIsOwn(s: Store, prefix: string, t: Token, pageSize: int, now: int, listing: seq<Item>)
    requires Valid(s) && Before(s, now) && InRange(t)
    ensures var answer := Listed(s, prefix, Format(t), pageSize, now, listing);
            if t.id in s.byID && s.byID[t.id].prefix == prefix && now <= s.byID[t.id].expiresAt then
              answer.page == Paginate(t.id, s.byID[t.id].items, t.offset, pageSize) && answer.store.nextID == s.nextID
            else
              && answer.store.nextID == s.nextID + 1
              && answer.page == Paginate(s.nextID + 1, listing, t.offset, pageSize)
  {
    hide Parse, Format, TokenOffset, Paginate;
    TokenRoundTrip(t);
    StartedID(Looked(s, Format(t), now), prefix, listing, now);
  }

  /** A listing request leaves no expired snapshot, whether it is answered from one or starts one; nor does a look for
      the snapshot of a well-formed token. */
  lemma NoneExpired(s: Store, prefix: string, token: string, pageSize: int, now: int, listing: seq<Item>)
    requires Valid(s) && Before(s, now)
    ensures var r := Listed(s, prefix, token, pageSize, now, listing).store;
            forall id :: id in r.byID ==> now <= r.byID[id].expiresAt
    ensures forall id :: id in Looked(s, token, now).byID && Parse(token).Some? ==>
              now <= Looked(s, token, now).byID[id].expiresAt
  {
    hide Parse, Newer;
  }

  lemma DropOldest(byID: map<nat, Snapshot>, oldest: nat)
    requires oldest in byID && |byID| > MAX_SNAPSHOTS && forall id :: id in byID ==> oldest <= id
    ensures Newest(byID - {oldest}) == Newest(byID)
  {
    hide Newer;
    AllOthersNewer(byID, oldest);
    forall id | id in byID
      ensures Newer(byID - {oldest}, id) == Newer(byID, id)
    {
      NewerWithout(byID, oldest, id);
    }
  }

  lemma AllOthersNewer(byID: map<nat, Snapshot>, oldest: nat)
    requires oldest in byID && forall id :: id in byID ==> oldest <= id
    ensures |Newer(byID, oldest)| == |byID| - 1
  {
    assert Newer(byID, oldest) == byID.Keys - {oldest};
  }

  lemma NewerWithout(byID: map<nat, Snapshot>, oldest: nat, id: nat)
    requires oldest <= id
    ensures Newer(byID - {oldest}, id) == Newer(byID, id)
  {
  }

  lemma AllNewest(byID: map<nat, Snapshot>)
    requires |byID| <= MAX_SNAPSHOTS
    ensures Newest(byID) == byID
  {
    forall id | id in byID
      ensures |Newer(byID, id)| < MAX_SNAPSHOTS
    {
      assert Newer(byID, id) <= byID.Keys - {id};
      SmallerSet(Newer(byID, id), byID.Keys - {id});
    }
  }

  lemma {:induction false} Minimum(s: set<nat>) returns (m: nat)
    requires s != {}
    ensures m in s && forall x :: x in s ==> m <= x
    decreases s
  {
    var first :| first in s;
    var rest := s - {first};
    if rest == {} {
      assert s == {first};
      m := first;
    } else {
      var least := Minimum(rest);
      m := if least < first then least else first;
      assert forall x :: x in s ==> x == first || x in rest;
    }
  }

  lemma {:induction false} AtMostSixteen(byID: map<nat, Snapshot>)
    ensures |Newest(byID)| <= MAX_SNAPSHOTS
    decreases |byID|
  {
    if |byID| <= MAX_SNAPSHOTS {
      AllNewest(byID);
    } else {
      var oldest := Minimum(byID.Keys);
      DropOldest(byID, oldest);
      AtMostSixteen(byID - {oldest});
    }
  }

  lemma {:induction false} SmallerSet(a: set<nat>, b: set<nat>)
    requires a <= b
    ensures |a| <= |b|
    decreases a
  {
    if a == {} {
    } else {
      var x :| x in a;
      SmallerSet(a - {x}, b - {x});
    }
  }

  // ---------------------------------------------------------------- how long a snapshot lives

  lemma {:induction false} FewBetween(ids: set<nat>, low: nat, high: nat)
    requires forall id :: id in ids ==> low < id <= high
    ensures |ids| <= if low < high then high - low else 0
    decreases high
  {
    if ids == {} {
    } else {
      var rest := ids - {high};
      FewBetween(rest, low, high - 1);
      assert high in ids ==> |rest| == |ids| - 1;
      assert high !in ids ==> rest == ids;
    }
  }

  lemma AddedValid(s: Store, prefix: string, items: seq<Item>, now: int)
    requires Valid(s) && Before(s, now)
    ensures Valid(Store(s.nextID + 1, Pruned(s.byID, now)[s.nextID + 1 := Snapshot(prefix, items, now, now + TTL)]))
  {
  }

  lemma BoundedNewer(s: Store, id: nat)
    requires Valid(s)
    ensures forall j :: j in Newer(s.byID, id) ==> id < j <= s.nextID
  {
  }

  lemma NewestValid(s: Store)
    requires Valid(s)
    ensures Valid(Store(s.nextID, Newest(s.byID)))
  {
    hide Newer;
  }

  /** An ID that fewer than 16 given-out IDs follow stays. */
  lemma StaysNewest(s: Store, id: nat)
    requires Valid(s) && id in s.byID && s.nextID - id < MAX_SNAPSHOTS
    ensures id in Newest(s.byID)
  {
    BoundedNewer(s, id);
    hide Newer;
    FewBetween(Newer(s.byID, id), id, s.nextID);
  }

  lemma KnownId(s: Store, id: nat)
    requires Valid(s)
    ensures id in s.byID ==> id <= s.nextID
  {
  }

  /** A start keeps the invariant, leaves at most 16 snapshots, and loses an unexpired one only when 15 later
      listings have been started before this one. */
  lemma StartKeeps(s: Store, prefix: string, items: seq<Item>, now: int, id: nat)
    requires Valid(s) && Before(s, now)
    ensures var r := Started(s, prefix, items, now);
            && Valid(r) && Before(r, now + 1) && |r.byID| <= MAX_SNAPSHOTS
            && r.nextID in r.byID && r.byID[r.nextID].items == items && r.byID[r.nextID].prefix == prefix
            && (id in s.byID && now <= s.byID[id].expiresAt && r.nextID - id < MAX_SNAPSHOTS ==>
                  id in r.byID && r.byID[id] == s.byID[id])
  {
    hide Newer, Valid;
    var all := Pruned(s.byID, now)[s.nextID + 1 := Snapshot(prefix, items, now, now + TTL)];
    var added := Store(s.nextID + 1, all);
    AtMostSixteen(all);
    AddedValid(s, prefix, items, now);
    NewestValid(added);
    StaysNewest(added, s.nextID + 1);
    KnownId(s, id);
    if id in all && s.nextID + 1 - id < MAX_SNAPSHOTS {
      StaysNewest(added, id);
    }
  }

  /** What a request does to the store. */
  lemma ListedKeeps(s: Store, prefix: string, token: string, pageSize: int, now: int, listing: seq<Item>)
    requires Valid(s) && Before(s, now)
    ensures var r := Listed(s, prefix, token, pageSize, now, listing).store;
            && Valid(r) && Before(r, now + 1) && s.nextID <= r.nextID <= s.nextID + 1
            && (r.nextID > s.nextID ==>
                  && r.nextID in r.byID
                  && r.byID[r.nextID] == Snapshot(prefix, listing, now, now + TTL))
            && forall id :: id in r.byID && id <= s.nextID ==> id in s.byID && r.byID[id] == s.byID[id]
  {
    hide Valid, Pruned, Started, PageOf, Parse;
    var looked := Looked(s, token, now);
    LookedKeeps(s, token, now);
    StartKeeps(looked, prefix, listing, now, 0);
    StartedOnly(looked, prefix, listing, now);
    StartedID(looked, prefix, listing, now);
  }

  lemma StartedOnly(s: Store, prefix: string, items: seq<Item>, now: int)
    ensures var r := Started(s, prefix, items, now);
            && (forall id :: id in r.byID && id <= s.nextID ==> id in s.byID && r.byID[id] == s.byID[id])
            && (r.nextID in r.byID ==> r.byID[r.nextID] == Snapshot(prefix, items, now, now + TTL))
  {
    hide Newer;
  }

  function Range(low: nat, n: nat): (r: set<nat>)
    ensures |r| == n && forall j :: j in r <==> low < j <= low + n
  {
    if n == 0 then {} else Range(low, n - 1) + {low + n}
  }

  /** The snapshots from `id` on are there while fewer than 16 later ones have been started, and none has expired by
      `until`; once 16 have, `id` is gone. */
  ghost predicate Dense(s: Store, id: nat, until: int) {
    && id <= s.nextID
    && (forall j :: id <= j <= s.nextID && s.nextID - j < MAX_SNAPSHOTS ==> j in s.byID && until <= s.byID[j].expiresAt)
    && (id in s.byID ==> s.nextID - id < MAX_SNAPSHOTS)
  }

  /** The sixteenth later start removes a snapshot. */
  lemma StartDrops(s: Store, prefix: string, items: seq<Item>, now: int, id: nat, until: int)
    requires Valid(s) && Dense(s, id, until) && now <= until && s.nextID + 1 - id >= MAX_SNAPSHOTS
    ensures id !in Started(s, prefix, items, now).byID
  {
    var next := s.nextID + 1;
    var all := Pruned(s.byID, now)[next := Snapshot(prefix, items, now, now + TTL)];
    var last := Range(next - MAX_SNAPSHOTS, MAX_SNAPSHOTS);
    assert last <= Newer(all, id);
    SmallerSet(last, Newer(all, id));
  }

  lemma StartDense(s: Store, prefix: string, items: seq<Item>, now: int, id: nat, until: int)
    requires Valid(s) && Before(s, now) && Dense(s, id, until) && now <= until <= now + TTL
    ensures Dense(Started(s, prefix, items, now), id, until)
  {
    hide Started, Valid, Before;
    var r := Started(s, prefix, items, now);
    StartedID(s, prefix, items, now);
    StartedOnly(s, prefix, items, now);
    forall j | id <= j <= r.nextID && r.nextID - j < MAX_SNAPSHOTS
      ensures j in r.byID && until <= r.byID[j].expiresAt
    {
      StartKeeps(s, prefix, items, now, j);
    }
    if s.nextID + 1 - id >= MAX_SNAPSHOTS {
      StartDrops(s, prefix, items, now, id, until);
    }
  }

  lemma ListedDense(s: Store, prefix: string, token: string, pageSize: int, now: int, listing: seq<Item>, id: nat,
                    until: int)
    requires Valid(s) && Before(s, now) && Dense(s, id, until) && now <= until <= now + TTL
    ensures Dense(Listed(s, prefix, token, pageSize, now, listing).store, id, until)
  {
    hide Valid, Before, Started, PageOf, Pruned, Parse;
    LookedKeeps(s, token, now);
    StartDense(Looked(s, token, now), prefix, listing, now, id, until);
  }

  // ---------------------------------------------------------------- reading a listing to its end

  /** A request by somebody else, or by the client for its next page; `listing` is the directory at that moment. */
  datatype Event =
    | OtherLists(prefix: string, token: string, pageSize: int, now: int, listing: seq<Item>)
    | IRead(pageSize: int, now: int, listing: seq<Item>)

  /** A client that follows its tokens. */
  datatype Client = Reading(token: string, got: seq<Item>) | Finished(got: seq<Item>)

  /** The store, the client, the listings captured for it, and the offsets at which it went over to them. */
  datatype View = View(store: Store, client: Client, captured: seq<seq<Item>>, cuts: seq<nat>)

  function Turns(got: seq<Item>, page: Page): Client {
    if page.nextToken == "" then Finished(got + page.items) else Reading(page.nextToken, got + page.items)
  }

  function Begin(s: Store, prefix: string, pageSize: int, now: int, listing: seq<Item>): View {
    var answer := Listed(s, prefix, "", pageSize, now, listing);
    View(answer.store, Turns([], answer.page), [listing], [0])
  }

  function Next(v: View, prefix: string, e: Event): View {
    match e
    case OtherLists(p, token, pageSize, now, listing) =>
      v.(store := Listed(v.store, p, token, pageSize, now, listing).store)
    case IRead(pageSize, now, listing) =>
      if v.client.Finished? then v
      else
        var answer := Listed(v.store, prefix, v.client.token, pageSize, now, listing);
        var next := v.(store := answer.store, client := Turns(v.client.got, answer.page));
        if answer.store.nextID == v.store.nextID then next
        else next.(captured := v.captured + [listing], cuts := v.cuts + [|v.client.got|])
  }

  function Follow(v: View, prefix: string, events: seq<Event>): View
    decreases |events|
  {
    if events == [] then v else Follow(Next(v, prefix, events[0]), prefix, events[1..])
  }

  function Reads(events: seq<Event>): nat {
    if events == [] then 0 else (if events[0].IRead? then 1 else 0) + Reads(events[1..])
  }

  /** The clock is strictly increasing. */
  predicate Timely(events: seq<Event>, since: int)
    decreases |events|
  {
    events == [] || (since < events[0].now && Timely(events[1..], events[0].now))
  }

  predicate NoneAfter(events: seq<Event>, until: int) {
    forall i :: 0 <= i < |events| ==> events[i].now <= until
  }

  predicate InLimits(events: seq<Event>) {
    forall i :: 0 <= i < |events| ==> |events[i].listing| < INT_LIMIT
  }

  function Last(v: View): seq<Item>
    requires v.captured != []
  {
    v.captured[|v.captured| - 1]
  }

  /** The client's token names the snapshot `id` of the listing captured last, at the offset it has reached. */
  ghost predicate Holds(v: View, prefix: string, id: nat) {
    && Valid(v.store) && v.captured != [] && |Last(v)| < INT_LIMIT
    && match v.client
       case Finished(got) => |got| >= |Last(v)|
       case Reading(token, got) =>
         && 0 < id <= v.store.nextID && token == Format(Token(id, |got|)) && |got| < |Last(v)|
         && (id in v.store.byID ==> v.store.byID[id].items == Last(v) && v.store.byID[id].prefix == prefix)
  }

  /** What the client has got in addition stands there in the listing captured last. */
  predicate ReadsOn(v: View, v': View) {
    |v'.client.got| > |v.client.got| ==>
      && v'.captured != [] && |v'.client.got| <= |Last(v')|
      && v'.client.got[|v.client.got|..] == Last(v')[|v.client.got|..|v'.client.got|]
  }

  /** A read may capture one listing more, at the offset the client has reached. */
  predicate CapturesOn(v: View, v': View, e: Event) {
    || (v'.captured == v.captured && v'.cuts == v.cuts)
    || (e.IRead? && v.client.Reading? && v'.captured == v.captured + [e.listing]
        && v'.cuts == v.cuts + [|v.client.got|])
  }

  /** One page more of the listing `items`. */
  lemma PageContinues(id: nat, items: seq<Item>, got: seq<Item>, pageSize: int)
    requires 0 < id < UINT64_LIMIT && |items| < INT_LIMIT
    ensures var c := Turns(got, Paginate(id, items, |got|, pageSize));
            && |got| <= |c.got| && c.got == got + (if |got| < |items| then items[|got|..|c.got|] else [])
            && (|got| < |items| ==> |got| < |c.got| <= |items|)
            && match c
               case Reading(token, _) => token == Format(Token(id, |c.got|)) && |c.got| < |items|
               case Finished(_) => |c.got| >= |items|
  {
    var page := Paginate(id, items, |got|, pageSize);
    if |got| < |items| {
      assert Format(Token(id, |got| + |page.items|)) != "";
    }
  }

  /** What one read of the client does: its page comes from its own snapshot exactly while that is still there, and
      otherwise from the current listing, at the same offset. */
  lemma ReadExact(v: View, prefix: string, id: nat, pageSize: int, now: int, listing: seq<Item>)
    requires Holds(v, prefix, id) && v.client.Reading? && v.store.nextID < UINT64_LIMIT
    ensures var answer := Listed(v.store, prefix, v.client.token, pageSize, now, listing);
            if id in v.store.byID && now <= v.store.byID[id].expiresAt then
              && answer.page == Paginate(id, Last(v), |v.client.got|, pageSize)
              && answer.store.nextID == v.store.nextID
            else
              && answer.page == Paginate(v.store.nextID + 1, listing, |v.client.got|, pageSize)
              && answer.store.nextID == v.store.nextID + 1
  {
    hide Format, Parse, TokenOffset, Valid, Paginate;
    TokenRoundTrip(Token(id, |v.client.got|));
    StartedID(Looked(v.store, v.client.token, now), prefix, listing, now);
  }

  lemma NextHolds(v: View, prefix: string, id: nat, e: Event) returns (next: nat)
    requires Holds(v, prefix, id) && Before(v.store, e.now) && Next(v, prefix, e).store.nextID < UINT64_LIMIT
    requires |e.listing| < INT_LIMIT
    ensures Holds(Next(v, prefix, e), prefix, next) && Before(Next(v, prefix, e).store, e.now + 1)
    ensures v.store.nextID <= Next(v, prefix, e).store.nextID
    ensures v.client.got <= Next(v, prefix, e).client.got && v.captured <= Next(v, prefix, e).captured
    ensures ReadsOn(v, Next(v, prefix, e)) && (v.client.Finished? ==> Next(v, prefix, e).client == v.client)
    ensures v.client.Reading? && e.IRead? ==>
              Next(v, prefix, e).client.Finished? || |Next(v, prefix, e).client.got| > |v.client.got|
    ensures CapturesOn(v, Next(v, prefix, e), e)
    ensures e.OtherLists? || (id in v.store.byID && e.now <= v.store.byID[id].expiresAt) ==>
              next == id && Next(v, prefix, e).captured == v.captured
  {
    hide Listed, Valid, Before, Paginate, Format;
    next := id;
    if e.OtherLists? {
      ListedKeeps(v.store, e.prefix, e.token, e.pageSize, e.now, e.listing);
    } else if v.client.Reading? {
      ListedKeeps(v.store, prefix, v.client.token, e.pageSize, e.now, e.listing);
      ReadExact(v, prefix, id, e.pageSize, e.now, e.listing);
      if id in v.store.byID && e.now <= v.store.byID[id].expiresAt {
        PageContinues(id, Last(v), v.client.got, e.pageSize);
      } else {
        next := v.store.nextID + 1;
        PageContinues(next, e.listing, v.client.got, e.pageSize);
      }
    } else {
      BeforeLater(v.store, e.now, e.now + 1);
    }
  }

  lemma BeforeLater(s: Store, now: int, later: int)
    requires Before(s, now) && now <= later
    ensures Before(s, later)
  {
  }

  lemma BeginHolds(s: Store, prefix: string, pageSize: int, now: int, listing: seq<Item>)
    requires Valid(s) && Before(s, now) && s.nextID + 1 < UINT64_LIMIT && |listing| < INT_LIMIT
    ensures var v := Begin(s, prefix, pageSize, now, listing);
            && Holds(v, prefix, s.nextID + 1) && Before(v.store, now + 1) && v.store.nextID == s.nextID + 1
            && v.client.got <= listing
  {
    hide Valid, Before, Paginate, Format, Started;
    NoToken();
    ListedKeeps(s, prefix, "", pageSize, now, listing);
    StartedID(s, prefix, listing, now);
    PageContinues(s.nextID + 1, listing, [], pageSize);
  }

  lemma NoToken()
    ensures Parse("").None? && TokenOffset("") == 0
  {
  }

  /** Where the client has left the listing captured as number `i`, having got `n` items. */
  function End(cuts: seq<nat>, i: nat, n: nat): nat {
    if i + 1 < |cuts| then cuts[i + 1] else n
  }

  /** The listing captured as number `i` is the one that is read at position `j`. */
  predicate ReadAt(cuts: seq<nat>, i: nat, j: nat, n: nat) {
    i < |cuts| && cuts[i] <= j < End(cuts, i, n) && j < n
  }

  predicate Same(listing: seq<Item>, items: seq<Item>, j: nat) {
    j < |listing| && j < |items| && listing[j] == items[j]
  }

  /** The items stand where each captured listing has them, from the offset at which the client went over to it to the
      one at which it left it. */
  ghost predicate Agree(captured: seq<seq<Item>>, cuts: seq<nat>, items: seq<Item>) {
    |captured| == |cuts| && forall i: nat, j: nat :: ReadAt(cuts, i, j, |items|) ==> Same(captured[i], items, j)
  }

  /** The offsets at which listings were captured, up to what the client has got. */
  predicate Cuts(cuts: seq<nat>, n: nat) {
    && cuts != [] && cuts[0] == 0
    && (forall i, k :: 0 <= i <= k < |cuts| ==> cuts[i] <= cuts[k])
    && forall i :: 0 <= i < |cuts| ==> cuts[i] <= n
  }

  /** What the client has is put together of the captured listings, each read from where the one before was left; it is
      through when it has as many items as the last of them, or had already. */
  ghost predicate Stitched(v: View) {
    && v.captured != [] && |v.captured| == |v.cuts| && Cuts(v.cuts, |v.client.got|)
    && Agree(v.captured, v.cuts, v.client.got)
    && (v.client.Finished? ==> |v.client.got| == FullLength(v))
    && (v.client.Reading? ==> |v.client.got| < |Last(v)|)
  }

  /** How many items a client has that reads the listing captured last to its end. */
  function FullLength(v: View): nat
    requires v.captured != [] && |v.captured| == |v.cuts|
  {
    Max(|Last(v)|, v.cuts[|v.cuts| - 1])
  }

  lemma StitchedAt(v: View, v': View, e: Event, i: nat, j: nat)
    requires Stitched(v) && v.client.got <= v'.client.got && ReadsOn(v, v') && CapturesOn(v, v', e)
    requires ReadAt(v'.cuts, i, j, |v'.client.got|)
    ensures i < |v'.captured| && Same(v'.captured[i], v'.client.got, j)
  {
    var got, got' := v.client.got, v'.client.got;
    if j < |got| {
      assert ReadAt(v.cuts, i, j, |got|);
    } else {
      assert i == |v'.cuts| - 1 && got'[j] == got'[|got|..][j - |got|];
    }
  }

  lemma StitchedNext(v: View, v': View, prefix: string, next: nat, e: Event)
    requires Stitched(v) && Holds(v', prefix, next) && v.client.got <= v'.client.got
    requires ReadsOn(v, v') && CapturesOn(v, v', e) && (v.client.Finished? ==> v'.client == v.client)
    ensures Stitched(v')
  {
    var got' := v'.client.got;
    forall i: nat, j: nat | ReadAt(v'.cuts, i, j, |got'|)
      ensures Same(v'.captured[i], got', j)
    {
      StitchedAt(v, v', e, i, j);
    }
  }

  /** Whatever the client's state, requests keep the store valid and never take an ID back. */
  lemma NextStore(v: View, prefix: string, e: Event)
    requires Valid(v.store) && Before(v.store, e.now)
    ensures var s := Next(v, prefix, e).store; Valid(s) && Before(s, e.now + 1) && v.store.nextID <= s.nextID
  {
    hide Valid, Before, Listed;
    BeforeLater(v.store, e.now, e.now + 1);
    if e.OtherLists? {
      ListedKeeps(v.store, e.prefix, e.token, e.pageSize, e.now, e.listing);
    } else if v.client.Reading? {
      ListedKeeps(v.store, prefix, v.client.token, e.pageSize, e.now, e.listing);
    }
  }

  lemma {:induction false} FollowStore(v: View, prefix: string, since: int, events: seq<Event>)
    requires Valid(v.store) && Before(v.store, since + 1) && Timely(events, since)
    ensures v.store.nextID <= Follow(v, prefix, events).store.nextID
    decreases |events|
  {
    if events == [] {
    } else {
      hide Valid, Before, Next;
      BeforeLater(v.store, since + 1, events[0].now);
      NextStore(v, prefix, events[0]);
      FollowStore(Next(v, prefix, events[0]), prefix, events[0].now, events[1..]);
    }
  }

  /** What the lemmas about whole runs share: one event, and that the rest are as they were. */
  lemma OneEvent(v: View, prefix: string, id: nat, since: int, events: seq<Event>) returns (next: nat)
    requires events != [] && Holds(v, prefix, id) && Before(v.store, since + 1)
    requires Timely(events, since) && InLimits(events) && Follow(v, prefix, events).store.nextID < UINT64_LIMIT
    ensures Before(v.store, events[0].now) && |events[0].listing| < INT_LIMIT
    ensures var v' := Next(v, prefix, events[0]);
            && Follow(v, prefix, events) == Follow(v', prefix, events[1..]) && v'.store.nextID < UINT64_LIMIT
            && Timely(events[1..], events[0].now) && InLimits(events[1..])
            && Holds(v', prefix, next) && Before(v'.store, events[0].now + 1)
            && v.client.got <= v'.client.got && v.captured <= v'.captured
            && ReadsOn(v, v') && (v.client.Finished? ==> v'.client == v.client)
            && (v.client.Reading? && events[0].IRead? ==> v'.client.Finished? || |v'.client.got| > |v.client.got|)
            && CapturesOn(v, v', events[0])
            && (id in v.store.byID && events[0].now <= v.store.byID[id].expiresAt ==>
                  next == id && v'.captured == v.captured)
  {
    hide Next, Before, Valid;
    var e := events[0];
    BeforeLater(v.store, since + 1, e.now);
    NextStore(v, prefix, e);
    FollowStore(Next(v, prefix, e), prefix, e.now, events[1..]);
    next := NextHolds(v, prefix, id, e);
  }

  lemma {:induction false} FollowStitched(v: View, prefix: string, id: nat, since: int, events: seq<Event>)
    requires Holds(v, prefix, id) && Before(v.store, since + 1) && Timely(events, since) && InLimits(events)
    requires Stitched(v) && Follow(v, prefix, events).store.nextID < UINT64_LIMIT
    ensures var end := Follow(v, prefix, events);
            Stitched(end) && (end.client.Reading? ==> |end.client.got| >= |v.client.got| + Reads(events))
    decreases |events|
  {
    if events == [] {
    } else {
      var next := OneEvent(v, prefix, id, since, events);
      var v' := Next(v, prefix, events[0]);
      hide Next, Before, Stitched, Follow, Valid;
      StitchedNext(v, v', prefix, next, events[0]);
      FollowStitched(v', prefix, next, events[0].now, events[1..]);
      StaysFinished(v', prefix, events[1..]);
    }
  }

  lemma {:induction false} StaysFinished(v: View, prefix: string, events: seq<Event>)
    ensures v.client.Finished? ==> Follow(v, prefix, events).client == v.client
    decreases |events|
  {
    hide Listed, Turns;
    if events != [] {
      StaysFinished(Next(v, prefix, events[0]), prefix, events[1..]);
    }
  }

  /** The client has the first items of the listing, and all of them when it is through. */
  predicate OnCourse(client: Client, items: seq<Item>) {
    client.got <= items && (client.Finished? ==> client.got == items)
  }

  ghost predicate AllCaptured(v: View, items: seq<Item>) {
    v.captured != [] && forall i :: 0 <= i < |v.captured| ==> v.captured[i] == items
  }

  lemma OnCourseNext(v: View, v': View, prefix: string, next: nat, items: seq<Item>)
    requires OnCourse(v.client, items) && Holds(v', prefix, next) && v.client.got <= v'.client.got && Last(v') == items
    requires ReadsOn(v, v')
    ensures OnCourse(v'.client, items)
  {
    var n, m := |v.client.got|, |v'.client.got|;
    if m > n {
      assert v'.client.got == v'.client.got[..n] + v'.client.got[n..] == items[..n] + items[n..m];
      assert items[..n] + items[n..m] == items[..m];
    } else {
      assert v'.client.got == v.client.got;
    }
  }

  lemma {:induction false} FollowUnchanged(v: View, prefix: string, id: nat, since: int, events: seq<Event>,
                                           items: seq<Item>)
    requires Holds(v, prefix, id) && Before(v.store, since + 1) && Timely(events, since) && InLimits(events)
    requires AllCaptured(v, items) && OnCourse(v.client, items)
    requires Follow(v, prefix, events).store.nextID < UINT64_LIMIT
    requires forall i :: 0 <= i < |events| && events[i].IRead? ==> events[i].listing == items
    ensures var end := Follow(v, prefix, events).client;
            OnCourse(end, items) && (|v.client.got| + Reads(events) >= |items| ==> end == Finished(items))
    decreases |events|
  {
    if events == [] {
    } else {
      var next := OneEvent(v, prefix, id, since, events);
      var v' := Next(v, prefix, events[0]);
      hide Next, Before, Follow, Valid;
      OnCourseNext(v, v', prefix, next, items);
      FollowUnchanged(v', prefix, next, events[0].now, events[1..], items);
      assert v.client.Finished? ==> |v.client.got| == |items|;
    }
  }

  lemma NextDense(v: View, prefix: string, e: Event, id: nat, until: int)
    requires Valid(v.store) && Before(v.store, e.now) && Dense(v.store, id, until) && e.now <= until <= e.now + TTL
    ensures Dense(Next(v, prefix, e).store, id, until)
  {
    hide Valid, Before, Dense, Listed;
    if e.OtherLists? {
      ListedDense(v.store, e.prefix, e.token, e.pageSize, e.now, e.listing, id, until);
    } else if v.client.Reading? {
      ListedDense(v.store, prefix, v.client.token, e.pageSize, e.now, e.listing, id, until);
    }
  }

  lemma {:induction false} FollowDense(v: View, prefix: string, id: nat, until: int, since: int, events: seq<Event>)
    requires Valid(v.store) && Before(v.store, since + 1) && Timely(events, since) && NoneAfter(events, until)
    requires Dense(v.store, id, until) && until <= since + TTL
    ensures Dense(Follow(v, prefix, events).store, id, until)
    decreases |events|
  {
    if events == [] {
    } else {
      hide Valid, Before, Dense, Next;
      BeforeLater(v.store, since + 1, events[0].now);
      NextStore(v, prefix, events[0]);
      NextDense(v, prefix, events[0], id, until);
      FollowDense(Next(v, prefix, events[0]), prefix, id, until, events[0].now, events[1..]);
    }
  }

  lemma DenseLives(s: Store, id: nat, until: int)
    requires Dense(s, id, until)
    ensures id in s.byID <==> s.nextID - id < MAX_SNAPSHOTS
    ensures id in s.byID ==> until <= s.byID[id].expiresAt
  {
  }

  lemma {:induction false} FollowLive(v: View, prefix: string, id: nat, until: int, since: int, events: seq<Event>,
                                      items: seq<Item>)
    requires Holds(v, prefix, id) && Before(v.store, since + 1) && Timely(events, since) && InLimits(events)
    requires NoneAfter(events, until) && Dense(v.store, id, until) && until <= since + TTL
    requires v.captured == [items] && OnCourse(v.client, items)
    requires Follow(v, prefix, events).store.nextID < UINT64_LIMIT
    requires Follow(v, prefix, events).store.nextID - id < MAX_SNAPSHOTS
    ensures var end := Follow(v, prefix, events);
            end.captured == [items] && OnCourse(end.client, items)
            && (|v.client.got| + Reads(events) >= |items| ==> end.client == Finished(items))
    decreases |events|
  {
    if events == [] {
    } else {
      var next := OneEvent(v, prefix, id, since, events);
      var v' := Next(v, prefix, events[0]);
      NextDense(v, prefix, events[0], id, until);
      FollowStore(v', prefix, events[0].now, events[1..]);
      NextStore(v, prefix, events[0]);
      DenseLives(v.store, id, until);
      hide Next, Before, Follow, Valid, Dense;
      OnCourseNext(v, v', prefix, next, items);
      FollowLive(v', prefix, id, until, events[0].now, events[1..], items);
      assert v.client.Finished? ==> |v.client.got| == |items|;
    }
  }

  lemma BeginDense(s: Store, prefix: string, pageSize: int, now: int, listing: seq<Item>)
    requires Valid(s) && Before(s, now)
    ensures Dense(Begin(s, prefix, pageSize, now, listing).store, s.nextID + 1, now + TTL)
  {
    hide Valid, Before, Started;
    NoToken();
    ListedKeeps(s, prefix, "", pageSize, now, listing);
    StartedID(s, prefix, listing, now);
  }

  /** While no request comes after the snapshot has expired, it is kept exactly as long as fewer than 16 later ones
      have been started. So long, a client that follows its tokens with any page sizes reads the captured listing and
      nothing else, whatever has become of the directory: what it has is always the start of it, and once it has read
      often enough, exactly all of it. */
  lemma PagingExact(s: Store, prefix: string, items: seq<Item>, firstSize: int, now: int, events: seq<Event>)
    requires Valid(s) && Before(s, now) && |items| < INT_LIMIT && Timely(events, now) && InLimits(events)
    requires NoneAfter(events, now + TTL)
    requires Follow(Begin(s, prefix, firstSize, now, items), prefix, events).store.nextID < UINT64_LIMIT
    ensures var end, id := Follow(Begin(s, prefix, firstSize, now, items), prefix, events), s.nextID + 1;
            && (id in end.store.byID <==> end.store.nextID - id < MAX_SNAPSHOTS)
            && (end.store.nextID - id < MAX_SNAPSHOTS ==>
                  && end.captured == [items] && OnCourse(end.client, items)
                  && (1 + Reads(events) >= |items| ==> end.client == Finished(items)))
  {
    var v, id := Begin(s, prefix, firstSize, now, items), s.nextID + 1;
    Started0(s, prefix, firstSize, now, items, events);
    BeginDense(s, prefix, firstSize, now, items);
    FollowDense(v, prefix, id, now + TTL, now, events);
    var end := Follow(v, prefix, events);
    DenseLives(end.store, id, now + TTL);
    hide Follow, Begin, Before, Dense, Valid;
    if end.store.nextID - id < MAX_SNAPSHOTS {
      FollowLive(v, prefix, id, now + TTL, now, events, items);
    }
  }

  /** A client that has begun. */
  lemma Started0(s: Store, prefix: string, firstSize: int, now: int, items: seq<Item>, events: seq<Event>)
    requires Valid(s) && Before(s, now) && |items| < INT_LIMIT && Timely(events, now)
    requires Follow(Begin(s, prefix, firstSize, now, items), prefix, events).store.nextID < UINT64_LIMIT
    ensures var v := Begin(s, prefix, firstSize, now, items);
            && Holds(v, prefix, s.nextID + 1) && Before(v.store, now + 1) && v.captured == [items]
            && OnCourse(v.client, items) && (v.client == Finished(items) || |v.client.got| > 0)
  {
    var v := Begin(s, prefix, firstSize, now, items);
    hide Valid, Before, Started, Follow, Paginate;
    NoToken();
    StartedID(s, prefix, items, now);
    ListedKeeps(s, prefix, "", firstSize, now, items);
    FollowStore(v, prefix, now, events);
    BeginHolds(s, prefix, firstSize, now, items);
    PageContinues(s.nextID + 1, items, [], firstSize);
  }

  /** When the directory does not change, the client gets exactly the listing, whatever expires or is evicted. */
  lemma PagingUnchanged(s: Store, prefix: string, items: seq<Item>, firstSize: int, now: int, events: seq<Event>)
    requires Valid(s) && Before(s, now) && |items| < INT_LIMIT && Timely(events, now) && InLimits(events)
    requires Follow(Begin(s, prefix, firstSize, now, items), prefix, events).store.nextID < UINT64_LIMIT
    requires forall i :: 0 <= i < |events| && events[i].IRead? ==> events[i].listing == items
    ensures var end := Follow(Begin(s, prefix, firstSize, now, items), prefix, events).client;
            OnCourse(end, items) && (1 + Reads(events) >= |items| ==> end == Finished(items))
  {
    Started0(s, prefix, firstSize, now, items, events);
    var v := Begin(s, prefix, firstSize, now, items);
    hide Follow, Begin, Before, Valid;
    FollowUnchanged(v, prefix, s.nextID + 1, now, events, items);
  }

  /** The cuts leave no gap. */
  lemma {:induction false} CutAround(cuts: seq<nat>, n: nat, j: nat, k: nat) returns (i: nat)
    requires Cuts(cuts, n) && j < n && k < |cuts| && cuts[k] <= j
    ensures ReadAt(cuts, i, j, n)
    decreases |cuts| - k
  {
    if j < End(cuts, k, n) {
      i := k;
    } else {
      i := CutAround(cuts, n, j, k + 1);
    }
  }

  lemma StitchedIs(v: View, wanted: seq<Item>)
    requires Stitched(v) && v.client.Finished?
    ensures v.client.got == wanted <==> |wanted| == FullLength(v) && Agree(v.captured, v.cuts, wanted)
  {
    var got := v.client.got;
    if |wanted| == FullLength(v) && Agree(v.captured, v.cuts, wanted) {
      forall j | 0 <= j < |got|
        ensures got[j] == wanted[j]
      {
        var i := CutAround(v.cuts, |got|, j, 0);
        assert Same(v.captured[i], got, j) && Same(v.captured[i], wanted, j);
      }
    }
  }

  /** In any case the client reads as much of each listing that is captured for it as stands between the offset at which
      it went over to it and the one at which it left it, the last of them to its end; and once it has read often
      enough for that one, it is through. */
  lemma PagingStitched(s: Store, prefix: string, items: seq<Item>, firstSize: int, now: int, events: seq<Event>)
    requires Valid(s) && Before(s, now) && |items| < INT_LIMIT && Timely(events, now) && InLimits(events)
    requires Follow(Begin(s, prefix, firstSize, now, items), prefix, events).store.nextID < UINT64_LIMIT
    ensures var end := Follow(Begin(s, prefix, firstSize, now, items), prefix, events);
            Stitched(end) && (1 + Reads(events) >= |Last(end)| ==> end.client.Finished?)
  {
    Started0(s, prefix, firstSize, now, items, events);
    var v := Begin(s, prefix, firstSize, now, items);
    hide Follow, Before, Valid, Listed, Paginate;
    assert Stitched(v);
    hide Begin, Stitched;
    FollowStitched(v, prefix, s.nextID + 1, now, events);
    StaysFinished(v, prefix, events);
    assert Stitched(Follow(v, prefix, events));
    StitchedLast(Follow(v, prefix, events));
  }

  lemma StitchedLast(v: View)
    requires Stitched(v)
    ensures v.captured != [] && |v.captured| == |v.cuts| && (v.client.Reading? ==> |v.client.got| < |Last(v)|)
  {
  }

  /** So a client that is through, whether it kept its snapshot or lost it any number of times, has got exactly the items
      `wanted` if and only if these are as many as the listing captured last gives and each captured listing has them
      where it was read. */
  lemma PagingExactIff(s: Store, prefix: string, items: seq<Item>, firstSize: int, now: int, events: seq<Event>,
                       wanted: seq<Item>)
    requires Valid(s) && Before(s, now) && |items| < INT_LIMIT && Timely(events, now) && InLimits(events)
    requires Follow(Begin(s, prefix, firstSize, now, items), prefix, events).store.nextID < UINT64_LIMIT
    ensures var end := Follow(Begin(s, prefix, firstSize, now, items), prefix, events);
            && end.captured != [] && |end.captured| == |end.cuts|
            && (end.client == Finished(wanted) <==>
                  end.client.Finished? && |wanted| == FullLength(end) && Agree(end.captured, end.cuts, wanted))
  {
    hide Stitched, Follow, Begin, Before, Valid;
    PagingStitched(s, prefix, items, firstSize, now, events);
    var end := Follow(Begin(s, prefix, firstSize, now, items), prefix, events);
    StitchedLast(end);
    if end.client.Finished? {
      StitchedIs(end, wanted);
    }
  }

  // ---------------------------------------------------------------- an item that does not reach the client

  /** Sixteen other clients, or any number of them, each starting on another directory. */
  function Starts(n: nat, from: int): seq<Event> {
    if n == 0 then [] else [OtherLists("", "", 1, from, [])] + Starts(n - 1, from + 1)
  }

  lemma {:induction false} StartsTimely(n: nat, from: int, until: int)
    requires from + n <= until + 1
    ensures |Starts(n, from)| == n && Timely(Starts(n, from), from - 1) && InLimits(Starts(n, from))
    ensures NoneAfter(Starts(n, from), until)
    decreases n
  {
    if n > 0 {
      StartsTimely(n - 1, from + 1, until);
      assert Starts(n, from)[1..] == Starts(n - 1, from + 1);
    }
  }

  lemma OneStart(v: View, prefix: string, now: int)
    ensures var v' := Next(v, prefix, OtherLists("", "", 1, now, []));
            v'.client == v.client && v'.captured == v.captured && v'.cuts == v.cuts
            && v'.store.nextID == v.store.nextID + 1
  {
    hide Started, Parse;
    NoToken();
    StartedID(v.store, "", [], now);
  }

  lemma {:induction false} AfterStarts(v: View, prefix: string, id: nat, n: nat, from: int)
    requires Holds(v, prefix, id) && Before(v.store, from) && v.store.nextID + n < UINT64_LIMIT
    ensures var end := Follow(v, prefix, Starts(n, from));
            && Holds(end, prefix, id) && Before(end.store, from + n) && end.store.nextID == v.store.nextID + n
            && end.client == v.client && end.captured == v.captured && end.cuts == v.cuts
    decreases n
  {
    if n > 0 {
      hide Before, Holds, Next;
      var e := OtherLists("", "", 1, from, []);
      assert Starts(n, from)[0] == e && Starts(n, from)[1..] == Starts(n - 1, from + 1);
      OneStart(v, prefix, from);
      var next := NextHolds(v, prefix, id, e);
      AfterStarts(Next(v, prefix, e), prefix, id, n - 1, from + 1);
    }
  }

  /** A client has begun to list two items, one at a time, when sixteen other listings push its snapshot out. */
  lemma Evicted(prefix: string, x: Item, y: Item, now: int)
    ensures var end := Follow(Begin(EMPTY, prefix, 1, now, [x, y]), prefix, Starts(16, now + 1));
            && Holds(end, prefix, 1) && 1 !in end.store.byID && end.store.nextID == 17
            && end.client.Reading? && end.client.got == [x] && end.captured == [[x, y]] && end.cuts == [0]
  {
    var v := Begin(EMPTY, prefix, 1, now, [x, y]);
    BeginTwo(prefix, x, y, now);
    BeginDense(EMPTY, prefix, 1, now, [x, y]);
    BeginHolds(EMPTY, prefix, 1, now, [x, y]);
    hide Begin, Follow, Holds, Dense, Before, Valid;
    StartsTimely(16, now + 1, now + TTL);
    HeldValid(v, prefix);
    AfterStarts(v, prefix, 1, 16, now + 1);
    FollowDense(v, prefix, 1, now + TTL, now, Starts(16, now + 1));
    DenseLives(Follow(v, prefix, Starts(16, now + 1)).store, 1, now + TTL);
  }

  lemma HeldValid(v: View, prefix: string)
    requires Holds(v, prefix, 1)
    ensures Valid(v.store)
  {
  }

  lemma BeginTwo(prefix: string, x: Item, y: Item, now: int)
    ensures var v := Begin(EMPTY, prefix, 1, now, [x, y]);
            && v.client.Reading? && v.client.got == [x] && v.captured == [[x, y]] && v.cuts == [0]
            && Valid(EMPTY) && Before(EMPTY, now)
  {
    hide Parse;
    NoToken();
    StartedID(EMPTY, prefix, [x, y], now);
    assert Format(Token(1, 1)) != "";
    assert [] + [x, y][0..1] == [x];
  }

  /** Positions are all it keeps: when the item before the offset has gone by its next read, the client is told that it
      is through, although an item of both listings has not reached it. */
  lemma EvictedSkips(prefix: string, x: Item, y: Item, now: int)
    ensures var v := Follow(Begin(EMPTY, prefix, 1, now, [x, y]), prefix, Starts(16, now + 1));
            var r := Next(v, prefix, IRead(1, now + 17, [y]));
            r.client == Finished([x]) && r.captured == [[x, y], [y]] && r.cuts == [0, 1]
  {
    hide Follow, Begin, Listed, Valid, Paginate, Format;
    Evicted(prefix, x, y, now);
    var v := Follow(Begin(EMPTY, prefix, 1, now, [x, y]), prefix, Starts(16, now + 1));
    ReadExact(v, prefix, 1, 1, now + 17, [y]);
    PageContinues(18, [y], [x], 1);
  }
}
