/** The crash-tolerant mutation journal of mutation_store.go, down to the bytes of its log files. */
module MutationLog {
  import opened RawPaths
  import opened Wrappers

  const MUTATION_RECORD_VERSION := 1

  /** The scanner gives up on a line that fills its buffer. */
  const MAX_TOKEN := 4 * 1024 * 1024

  datatype Record = Record(
    version: int, scope: string, id: string, taskId: string, kind: string,
    oldVirtualPath: string, newVirtualPath: string, oldLocalPath: string, newLocalPath: string,
    isDirectory: bool, uploadGeneration: nat, retryCount: int,
    nextAttemptUnixNs: int, lastError: string, updatedAtUnixNs: int)

  datatype Event = Event(kind: string, record: Record)

  type Live = map<string, Record>

  datatype Result = Ok(live: Live) | Err

  function UpsertEvent(record: Record): Event {
    Event("upsert", record)
  }

  function CompleteEvent(id: string): Event {
    Event("complete", Record(0, "", id, "", "", "", "", "", "", false, 0, 0, 0, "", 0))
  }

  /** The event encoding (one JSON object on one line in the repository). */
  datatype Codec = Codec(encode: Event -> string, decode: string -> Option<Event>)

  function Torn(c: Codec, e: Event, k: nat): string
    requires k <= |c.encode(e)|
  {
    c.encode(e)[..k]
  }

  /** What appends that fail part way leave on a line: the nonempty beginning of an encoding. */
  ghost predicate IsPiece(c: Codec, p: string) {
    exists e, k: nat :: 0 < k <= |c.encode(e)| && p == Torn(c, e, k)
  }

  function Glue(pieces: seq<string>): string {
    if pieces == [] then "" else pieces[0] + Glue(pieces[1..])
  }

  ghost predicate Pieces(c: Codec, pieces: seq<string>) {
    forall i :: 0 <= i < |pieces| ==> IsPiece(c, pieces[i])
  }

  /** What the journal needs of its encoding: it round-trips, stays on one line without outer spaces, no proper prefix
      decodes, and nothing glued together from two or more beginnings of encodings decodes. */
  ghost predicate ValidCodec(c: Codec) {
    && (forall e :: c.decode(c.encode(e)) == Some(e))
    && (forall e :: Tight(c.encode(e), IsSpace) && '\n' !in c.encode(e))
    && (forall e, k: nat :: 0 < k < |c.encode(e)| ==> c.decode(TrimSpace(Torn(c, e, k))) == None)
    && (forall pieces :: Pieces(c, pieces) && |pieces| >= 2 ==> c.decode(TrimSpace(Glue(pieces))) == None)
  }

  // ---------------------------------------------------------------- replaying one line

  function ApplyEvent(e: Event, live: Live): Result {
    if e.kind == "complete" then
      Ok(if e.record.id != "" then live - {e.record.id} else live)
    else if e.kind == "upsert" then
      if e.record.id == "" || e.record.version > MUTATION_RECORD_VERSION then Err else Ok(live[e.record.id := e.record])
    else
      Err
  }

  /** The events that replay accepts; Upsert itself checks neither the ID nor the version. */
  predicate Replayable(e: Event) {
    e.kind == "complete" || (e.kind == "upsert" && e.record.id != "" && e.record.version <= MUTATION_RECORD_VERSION)
  }

  predicate Writable(c: Codec, e: Event) {
    Replayable(e) && |c.encode(e)| < MAX_TOKEN
  }

  ghost predicate AllWritable(c: Codec, es: seq<Event>) {
    forall i :: 0 <= i < |es| ==> Writable(c, es[i])
  }

  function DecodeLine(c: Codec, line: string): Option<seq<Event>> {
    var trimmed := TrimSpace(line);
    if trimmed == "" then Some([])
    else match c.decode(trimmed)
      case None => None
      case Some(e) => if Replayable(e) then Some([e]) else None
  }

  function ApplyLine(c: Codec, line: string, live: Live): Result {
    var trimmed := TrimSpace(line);
    if trimmed == "" then Ok(live)
    else match c.decode(trimmed)
      case None => Err
      case Some(e) => ApplyEvent(e, live)
  }

  // ---------------------------------------------------------------- replaying one file

  function FirstNewline(text: string): (i: nat)
    ensures i <= |text|
    ensures i < |text| ==> text[i] == '\n'
    ensures '\n' !in text[..i]
  {
    if text == "" || text[0] == '\n' then 0
    else
      var i := 1 + FirstNewline(text[1..]);
      assert text[..i] == [text[0]] + text[1..][..i - 1];
      i
  }

  /** The raw tokens of the line scanner; an unterminated last line counts, an empty one does not. */
  function Scan(text: string): seq<string>
    decreases |text|
  {
    if text == "" then []
    else
      var i := FirstNewline(text);
      if i == |text| then [text] else [text[..i]] + Scan(text[i + 1..])
  }

  function DropCR(line: string): string {
    if line != "" && line[|line| - 1] == '\r' then line[..|line| - 1] else line
  }

  predicate EndsWithNewline(text: string) {
    text != "" && text[|text| - 1] == '\n'
  }

  function ReplayLines(c: Codec, lines: seq<string>, terminated: bool, live: Live): Result {
    if lines == [] then Ok(live)
    else if |lines[0]| >= MAX_TOKEN then Err
    else match ApplyLine(c, DropCR(lines[0]), live)
      case Ok(next) => ReplayLines(c, lines[1..], terminated, next)
      case Err => if |lines| == 1 && !terminated then Ok(live) else Err
  }

  function ReplayText(c: Codec, text: string, live: Live): Result {
    ReplayLines(c, Scan(text), EndsWithNewline(text), live)
  }

  lemma EmptyLine(c: Codec)
    ensures Scan("") == [] && forall live :: ApplyLine(c, "", live) == Ok(live)
  {
    assert TrimSpace("") == "";
  }

  lemma ScanNext(rest: string)
    requires rest != ""
    ensures var i := FirstNewline(rest);
            Scan(rest) == [rest[..i]] + Scan(if i == |rest| then "" else rest[i + 1..])
  {
    var i := FirstNewline(rest);
    if i == |rest| {
      assert rest[..i] == rest && Scan("") == [];
      assert [rest] + [] == [rest];
    }
  }

  /** The line loop: a line is applied strictly once a later line has been seen, the last one leniently. */
  method RestoreMutationFile(c: Codec, text: string, live0: Live) returns (ok: bool, live: Live)
    ensures ReplayText(c, text, live0) == if ok then Ok(live) else Err
  {
    hide Scan, ApplyLine, IsSpace, MAX_TOKEN;
    live := live0;
    assert [] + Scan(text) == Scan(text);
    EmptyLine(c);
    var rest, pendingLine, rawPending, seen := text, "", "", false;
    while rest != ""
      invariant seen ==> pendingLine == DropCR(rawPending) && |rawPending| < MAX_TOKEN
      invariant !seen ==> pendingLine == ""
      invariant ReplayText(c, text, live0)
             == ReplayLines(c, (if seen then [rawPending] else []) + Scan(rest), EndsWithNewline(text), live)
      decreases |rest|
    {
      var i := FirstNewline(rest);
      var line := rest[..i];
      ScanNext(rest);
      ghost var lines := (if seen then [rawPending] else []) + Scan(rest);
      assert seen ==> lines[1..] == Scan(rest);
      assert !seen ==> lines == Scan(rest);
      if |line| >= MAX_TOKEN {
        return false, live;
      }
      if pendingLine != "" {
        match ApplyLine(c, pendingLine, live)
        case Err =>
          return false, live;
        case Ok(next) =>
          live := next;
      }
      assert ReplayText(c, text, live0) == ReplayLines(c, Scan(rest), EndsWithNewline(text), live);
      rest := if i == |rest| then "" else rest[i + 1..];
      pendingLine, rawPending, seen := DropCR(line), line, true;
    }
    assert seen ==> ([rawPending] + Scan(rest))[1..] == [];
    if pendingLine != "" {
      match ApplyLine(c, pendingLine, live)
      case Ok(next) =>
        live := next;
      case Err =>
        if EndsWithNewline(text) {
          return false, live;
        }
    }
    ok := true;
  }

  // ---------------------------------------------------------------- a readable file is an event list

  function Effect(e: Event, live: Live): Live {
    match ApplyEvent(e, live)
    case Ok(next) => next
    case Err => live
  }

  /** The reference meaning of a history: its events applied in order. */
  function Fold(es: seq<Event>, live: Live): Live {
    if es == [] then live else Fold(es[1..], Effect(es[0], live))
  }

  function EventsOfLines(c: Codec, lines: seq<string>, terminated: bool): Option<seq<Event>> {
    if lines == [] then Some([])
    else if |lines[0]| >= MAX_TOKEN then None
    else match DecodeLine(c, DropCR(lines[0]))
      case None => if |lines| == 1 && !terminated then Some([]) else None
      case Some(es) =>
        Prepend(es, EventsOfLines(c, lines[1..], terminated))
  }

  function Prepend(es: seq<Event>, more: Option<seq<Event>>): Option<seq<Event>> {
    match more
    case None => None
    case Some(tail) => Some(es + tail)
  }

  function EventsOf(c: Codec, text: string): Option<seq<Event>> {
    EventsOfLines(c, Scan(text), EndsWithNewline(text))
  }

  lemma {:induction false} FoldConcat(a: seq<Event>, b: seq<Event>, live: Live)
    ensures Fold(a + b, live) == Fold(b, Fold(a, live))
  {
    if a == [] {
      assert a + b == b;
    } else {
      assert (a + b)[1..] == a[1..] + b;
      FoldConcat(a[1..], b, Effect(a[0], live));
    }
  }

  lemma {:induction false} ReplayLinesIsFold(c: Codec, lines: seq<string>, terminated: bool, live: Live)
    ensures ReplayLines(c, lines, terminated, live)
         == match EventsOfLines(c, lines, terminated) case None => Err case Some(es) => Ok(Fold(es, live))
  {
    if lines != [] && |lines[0]| < MAX_TOKEN {
      match DecodeLine(c, DropCR(lines[0]))
      case None =>
      case Some(es) =>
        assert Fold(es, live) == ApplyLine(c, DropCR(lines[0]), live).live by {
          assert es == [] || es[1..] == [];
        }
        ReplayLinesIsFold(c, lines[1..], terminated, Fold(es, live));
        match EventsOfLines(c, lines[1..], terminated)
        case None =>
        case Some(more) => FoldConcat(es, more, live);
    }
  }

  /** Whether a file can be read, and its effect, never depend on what was replayed before it. */
  lemma ReplayTextIsFold(c: Codec, text: string, live: Live)
    ensures ReplayText(c, text, live)
         == match EventsOf(c, text) case None => Err case Some(es) => Ok(Fold(es, live))
  {
    ReplayLinesIsFold(c, Scan(text), EndsWithNewline(text), live);
  }

  // ---------------------------------------------------------------- appends

  /** Lines, each with its newline. */
  function Terminated(lines: seq<string>): string {
    if lines == [] then "" else lines[0] + "\n" + Terminated(lines[1..])
  }

  function Lines(c: Codec, es: seq<Event>): (lines: seq<string>)
    ensures |lines| == |es| && forall i :: 0 <= i < |es| ==> lines[i] == c.encode(es[i])
  {
    if es == [] then [] else [c.encode(es[0])] + Lines(c, es[1..])
  }

  function LogText(c: Codec, es: seq<Event>): string {
    Terminated(Lines(c, es))
  }

  lemma LogTextCons(c: Codec, e: Event, es: seq<Event>)
    ensures LogText(c, [e] + es) == c.encode(e) + "\n" + LogText(c, es)
  {
    assert ([e] + es)[1..] == es;
    assert Lines(c, [e] + es)[1..] == Lines(c, es);
  }

  lemma {:induction false} LogTextSnoc(c: Codec, es: seq<Event>, e: Event)
    ensures LogText(c, es + [e]) == LogText(c, es) + c.encode(e) + "\n"
  {
    var nil: seq<Event> := [];
    assert LogText(c, nil) == "";
    if es == [] {
      LogTextCons(c, e, nil);
      assert es + [e] == [e] + nil;
    } else {
      LogTextSnoc(c, es[1..], e);
      LogTextCons(c, es[0], es[1..] + [e]);
      LogTextCons(c, es[0], es[1..]);
      hide LogText;
      assert es + [e] == [es[0]] + (es[1..] + [e]) && es == [es[0]] + es[1..];
    }
  }

  lemma FirstNewlineIs(a: string, b: string)
    requires '\n' !in a && (b == "" || b[0] == '\n')
    ensures FirstNewline(a + b) == |a|
  {
    var i := FirstNewline(a + b);
    assert forall j :: 0 <= j < |a| ==> (a + b)[j] == a[j];
    if b != "" {
      assert (a + b)[|a|] == '\n';
    }
  }

  lemma ScanLine(line: string, rest: string)
    requires '\n' !in line
    ensures Scan(line + "\n" + rest) == [line] + Scan(rest)
    ensures Scan(line) == if line == "" then [] else [line]
  {
    var text := line + "\n" + rest;
    assert text == line + ("\n" + rest) && line + "" == line;
    FirstNewlineIs(line, "\n" + rest);
    FirstNewlineIs(line, "");
    assert text[..|line|] == line && text[|line| + 1..] == rest;
  }

  lemma EncodedLine(c: Codec, e: Event)
    requires ValidCodec(c)
    ensures var line := c.encode(e); DropCR(line) == line && TrimSpace(line) == line && line != ""
    ensures DecodeLine(c, c.encode(e)) == if Replayable(e) then Some([e]) else None
  {
    TrimTight(c.encode(e), IsSpace);
  }

  lemma {:induction false} ScanTerminated(lines: seq<string>, tail: string)
    requires forall i :: 0 <= i < |lines| ==> '\n' !in lines[i]
    ensures Scan(Terminated(lines) + tail) == lines + Scan(tail)
  {
    if lines == [] {
      assert Terminated(lines) + tail == tail;
      assert lines + Scan(tail) == Scan(tail);
    } else {
      ScanTerminated(lines[1..], tail);
      ScanFirst(lines[0], lines[1..], tail);
      assert lines == [lines[0]] + lines[1..];
    }
  }

  lemma Assoc<T>(a: seq<T>, b: seq<T>, c: seq<T>)
    ensures a + b + c == a + (b + c)
  {
  }

  lemma ScanFirst(line: string, more: seq<string>, tail: string)
    requires '\n' !in line && Scan(Terminated(more) + tail) == more + Scan(tail)
    ensures Scan(Terminated([line] + more) + tail) == [line] + more + Scan(tail)
  {
    var rest := Terminated(more);
    assert Terminated([line] + more) == line + "\n" + rest by {
      assert ([line] + more)[1..] == more;
    }
    Assoc(line + "\n", rest, tail);
    ScanLine(line, rest + tail);
    Assoc([line], more, Scan(tail));
  }

  lemma ScanLog(c: Codec, es: seq<Event>, tail: string)
    requires ValidCodec(c)
    ensures Scan(LogText(c, es) + tail) == Lines(c, es) + Scan(tail)
  {
    ScanTerminated(Lines(c, es), tail);
  }

  lemma GoodLine(c: Codec, e: Event, rest: seq<string>, terminated: bool)
    requires ValidCodec(c) && Writable(c, e)
    ensures EventsOfLines(c, [c.encode(e)] + rest, terminated) == Prepend([e], EventsOfLines(c, rest, terminated))
  {
    EncodedLine(c, e);
    hide DecodeLine, DropCR, ValidCodec;
    var all := [c.encode(e)] + rest;
    assert all[0] == c.encode(e) && all[1..] == rest;
  }

  lemma PrependTwice(e: Event, es: seq<Event>, more: Option<seq<Event>>)
    ensures Prepend([e], Prepend(es, more)) == Prepend([e] + es, more)
  {
    if more.Some? {
      assert [e] + (es + more.value) == [e] + es + more.value;
    }
  }

  lemma {:induction false} EventsOfGoodLines(c: Codec, es: seq<Event>, lines: seq<string>, terminated: bool)
    requires ValidCodec(c) && AllWritable(c, es)
    ensures EventsOfLines(c, Lines(c, es) + lines, terminated) == Prepend(es, EventsOfLines(c, lines, terminated))
  {
    hide EventsOfLines, ValidCodec, Writable;
    if es == [] {
      assert Lines(c, es) + lines == lines;
      assert forall more: seq<Event> :: es + more == more;
    } else {
      var rest := Lines(c, es[1..]) + lines;
      assert Lines(c, es) + lines == [c.encode(es[0])] + rest;
      GoodLine(c, es[0], rest, terminated);
      EventsOfGoodLines(c, es[1..], lines, terminated);
      PrependTwice(es[0], es[1..], EventsOfLines(c, lines, terminated));
      assert [es[0]] + es[1..] == es;
    }
  }

  lemma EventsAfterLog(c: Codec, es: seq<Event>, tail: string)
    requires ValidCodec(c) && AllWritable(c, es)
    ensures EventsOf(c, LogText(c, es) + tail)
         == Prepend(es, EventsOfLines(c, Scan(tail), EndsWithNewline(LogText(c, es) + tail)))
  {
    ScanLog(c, es, tail);
    EventsOfGoodLines(c, es, Scan(tail), EndsWithNewline(LogText(c, es) + tail));
  }

  /** The first `k` bytes of a line hold no event, or the whole event once only the newline is missing. */
  lemma EventsOfTornLine(c: Codec, e: Event, k: nat)
    requires ValidCodec(c) && k <= |c.encode(e)|
    ensures var t := Torn(c, e, k);
            && !EndsWithNewline(t)
            && EventsOfLines(c, Scan(t), false)
            == if k >= MAX_TOKEN then None else if k == |c.encode(e)| && Replayable(e) then Some([e]) else Some([])
  {
    var t := Torn(c, e, k);
    assert '\n' !in t;
    ScanLine(t, "");
    var nil: seq<Event> := [];
    assert nil + nil == nil;
    if k > 0 {
      assert t[k - 1] in t;
      assert Scan(t)[1..] == [];
      if k == |c.encode(e)| {
        assert t == c.encode(e);
        EncodedLine(c, e);
        assert [e] + [] == [e];
      } else if DropCR(t) != t {
        assert DropCR(t) == Torn(c, e, k - 1);
      }
    }
  }

  lemma EventsOfLine(c: Codec, e: Event)
    requires ValidCodec(c)
    ensures EventsOfLines(c, Scan(c.encode(e) + "\n"), true) == if Writable(c, e) then Some([e]) else None
  {
    ScanLine(c.encode(e), "");
    assert c.encode(e) + "\n" + "" == c.encode(e) + "\n";
    EncodedLine(c, e);
    assert Scan(c.encode(e) + "\n")[1..] == [];
    assert [e] + [] == [e];
  }

  lemma Termination(a: string, b: string)
    ensures b != "" ==> EndsWithNewline(a + b) == EndsWithNewline(b)
  {
  }

  /** Appends are atomic under torn writes. After a history of writable events, a restore that sees only the
      first `k` bytes of one more append returns the history without or with that event; a finished line that
      replay rejects, and a piece too long for the scanner, are errors. */
  lemma AppendAtomic(c: Codec, es: seq<Event>, e: Event, k: nat, live: Live)
    requires ValidCodec(c) && AllWritable(c, es)
    requires k <= |c.encode(e)| + 1
    ensures var result := ReplayText(c, LogText(c, es) + (c.encode(e) + "\n")[..k], live);
            var n := |c.encode(e)|;
            && (k < n && k < MAX_TOKEN ==> result == Ok(Fold(es, live)))
            && (k == n && k < MAX_TOKEN ==> result == Ok(Fold(if Replayable(e) then es + [e] else es, live)))
            && (k == n + 1 ==> result == if Writable(c, e) then Ok(Fold(es + [e], live)) else Err)
            && (MAX_TOKEN <= k <= n ==> result == Err)
  {
    var tail := (c.encode(e) + "\n")[..k];
    var text := LogText(c, es) + tail;
    ReplayTextIsFold(c, text, live);
    EventsAfterLog(c, es, tail);
    Termination(LogText(c, es), tail);
    assert es + [] == es;
    if k == |c.encode(e)| + 1 {
      assert tail == c.encode(e) + "\n";
      EventsOfLine(c, e);
    } else {
      assert tail == Torn(c, e, k);
      EventsOfTornLine(c, e, k);
    }
  }

  lemma PieceStart(c: Codec, p: string)
    requires ValidCodec(c) && IsPiece(c, p)
    ensures p != "" && !IsSpace(p[0]) && '\n' !in p
  {
    var e, k: nat :| 0 < k <= |c.encode(e)| && p == Torn(c, e, k);
    assert p[0] == c.encode(e)[0];
  }

  lemma {:induction false} GlueSnoc(pieces: seq<string>, p: string)
    ensures Glue(pieces + [p]) == Glue(pieces) + p
  {
    if pieces == [] {
      assert pieces + [p] == [p] && [p][1..] == [];
    } else {
      assert (pieces + [p])[1..] == pieces[1..] + [p];
      GlueSnoc(pieces[1..], p);
      Assoc(pieces[0], Glue(pieces[1..]), p);
    }
  }

  lemma {:induction false} GluePlain(c: Codec, pieces: seq<string>)
    requires ValidCodec(c) && Pieces(c, pieces)
    ensures '\n' !in Glue(pieces) && (pieces != [] ==> Glue(pieces) != "" && !IsSpace(Glue(pieces)[0]))
  {
    if pieces == [] {
    } else {
      assert IsPiece(c, pieces[0]);
      PieceStart(c, pieces[0]);
      assert Pieces(c, pieces[1..]) by {
        assert forall i :: 0 <= i < |pieces[1..]| ==> pieces[1..][i] == pieces[i + 1];
      }
      hide ValidCodec, IsSpace, IsPiece;
      GluePlain(c, pieces[1..]);
    }
  }

  /** A text that starts with no space is not trimmed away. */
  lemma NotBlank(s: string)
    requires s != "" && !IsSpace(s[0])
    ensures TrimSpace(s) != ""
  {
    hide IsSpace;
    assert TrimLeft(s, IsSpace) == s;
    KeepsFirst(s);
  }

  lemma {:induction false} KeepsFirst(s: string)
    requires s != "" && !IsSpace(s[0])
    ensures TrimRight(s, IsSpace) != ""
  {
    hide IsSpace;
    if |s| == 1 {
      assert s[|s| - 1] == s[0];
    } else if IsSpace(s[|s| - 1]) {
      KeepsFirst(s[..|s| - 1]);
    }
  }

  /** When the scanner drops a return at the end of a piece, another piece is left. */
  lemma ShorterPiece(c: Codec, p: string)
    requires ValidCodec(c) && IsPiece(c, p) && DropCR(p) != p
    ensures IsPiece(c, DropCR(p))
  {
    PieceStart(c, p);
    assert IsSpace('\r');
    var e, k: nat :| 0 < k <= |c.encode(e)| && p == Torn(c, e, k);
    assert DropCR(p) == Torn(c, e, k - 1) && k > 1;
  }

  lemma WithoutReturn(c: Codec, pieces: seq<string>) returns (left: seq<string>)
    requires ValidCodec(c) && Pieces(c, pieces) && |pieces| >= 2
    ensures Pieces(c, left) && |left| >= 2 && DropCR(Glue(pieces)) == Glue(left)
  {
    hide ValidCodec, IsPiece;
    var front, last := pieces[..|pieces| - 1], pieces[|pieces| - 1];
    assert pieces == front + [last] && IsPiece(c, last);
    PieceStart(c, last);
    GlueSnoc(front, last);
    GlueSnoc(front, DropCR(last));
    left := pieces;
    if DropCR(last) != last {
      ShorterPiece(c, last);
      left := front + [DropCR(last)];
    }
  }

  /** Two or more pieces on one line hold no event. */
  lemma GluedLine(c: Codec, pieces: seq<string>)
    requires ValidCodec(c) && Pieces(c, pieces) && |pieces| >= 2
    ensures DecodeLine(c, DropCR(Glue(pieces))) == None
  {
    hide IsSpace, IsPiece, DropCR;
    var left := WithoutReturn(c, pieces);
    GluePlain(c, left);
    NotBlank(Glue(left));
  }

  lemma OneLineLog(c: Codec, e: Event)
    ensures LogText(c, [e]) == c.encode(e) + "\n"
  {
    var lines := Lines(c, [e]);
    assert lines == [c.encode(e)] && lines[1..] == [];
    assert Terminated(lines[1..]) == "";
  }

  lemma {:induction false} BadLineFatal(c: Codec, before: seq<string>, bad: string, after: seq<string>, terminated: bool)
    requires DecodeLine(c, DropCR(bad)) == None && (after != [] || terminated)
    ensures EventsOfLines(c, before + [bad] + after, terminated) == None
  {
    var lines := before + [bad] + after;
    if before == [] {
      assert lines[0] == bad && lines[1..] == after;
    } else {
      assert lines[0] == before[0] && lines[1..] == before[1..] + [bad] + after;
      BadLineFatal(c, before[1..], bad, after, terminated);
    }
  }

  lemma ScanEmptyIff(text: string)
    ensures Scan(text) == [] <==> text == ""
  {
  }

  /** A malformed line that has its newline is an error, wherever it stands and whatever follows. */
  lemma MalformedLineFatal(c: Codec, before: seq<string>, bad: string, rest: string, live: Live)
    requires forall i :: 0 <= i < |before| ==> '\n' !in before[i]
    requires '\n' !in bad && DecodeLine(c, DropCR(bad)) == None
    ensures ReplayText(c, Terminated(before) + (bad + "\n" + rest), live) == Err
  {
    hide Scan, Terminated, DecodeLine, EventsOfLines, ReplayText;
    var tail := bad + "\n" + rest;
    var text := Terminated(before) + tail;
    ReplayTextIsFold(c, text, live);
    ScanTerminated(before, tail);
    ScanLine(bad, rest);
    assert Scan(text) == before + [bad] + Scan(rest);
    Termination(Terminated(before), tail);
    ScanEmptyIff(rest);
    BadLineFatal(c, before, bad, Scan(rest), EndsWithNewline(text));
  }

  // ---------------------------------------------------------------- series of appends, failed ones among them

  /** An append of which the first `written` bytes of its line got out. */
  datatype Attempt = Attempt(event: Event, written: nat)

  function PieceOf(c: Codec, a: Attempt): string {
    var line := c.encode(a.event) + "\n";
    if a.written < |line| then line[..a.written] else line
  }

  predicate Whole(c: Codec, a: Attempt) {
    a.written > |c.encode(a.event)|
  }

  predicate Partial(c: Codec, a: Attempt) {
    0 < a.written <= |c.encode(a.event)|
  }

  function AttemptText(c: Codec, attempts: seq<Attempt>): string {
    if attempts == [] then "" else PieceOf(c, attempts[0]) + AttemptText(c, attempts[1..])
  }

  predicate NoneWhole(c: Codec, attempts: seq<Attempt>) {
    forall i :: 0 <= i < |attempts| ==> !Whole(c, attempts[i])
  }

  /** No append goes through after one that stopped inside its line. */
  predicate Clean(c: Codec, attempts: seq<Attempt>) {
    forall i, j :: 0 <= i < j < |attempts| && Partial(c, attempts[i]) ==> !Whole(c, attempts[j])
  }

  /** The beginnings of lines that a series of failed appends leaves. */
  function PiecesOf(c: Codec, attempts: seq<Attempt>): seq<string> {
    if attempts == [] then []
    else (if Partial(c, attempts[0]) then [PieceOf(c, attempts[0])] else []) + PiecesOf(c, attempts[1..])
  }

  /** The events that a restore finds: the whole lines, and a last one that lacks but its newline. */
  function Kept(c: Codec, attempts: seq<Attempt>): seq<Event> {
    if attempts == [] then []
    else
      var a, rest := attempts[0], attempts[1..];
      if Whole(c, a) then [a.event] + Kept(c, rest)
      else if Partial(c, a) then if a.written == |c.encode(a.event)| && PiecesOf(c, rest) == [] then [a.event] else []
      else Kept(c, rest)
  }

  ghost predicate AttemptsFit(c: Codec, attempts: seq<Attempt>) {
    && (forall i :: 0 <= i < |attempts| ==> Writable(c, attempts[i].event))
    && |Glue(PiecesOf(c, attempts))| < MAX_TOKEN
  }

  lemma {:induction false} TextOfPieces(c: Codec, attempts: seq<Attempt>)
    requires NoneWhole(c, attempts)
    ensures AttemptText(c, attempts) == Glue(PiecesOf(c, attempts)) && Pieces(c, PiecesOf(c, attempts))
  {
    if attempts == [] {
    } else {
      var a, rest := attempts[0], attempts[1..];
      assert !Whole(c, a) && forall i :: 0 <= i < |rest| ==> rest[i] == attempts[i + 1];
      TextOfPieces(c, rest);
      if Partial(c, a) {
        assert PieceOf(c, a) == Torn(c, a.event, a.written);
        assert PiecesOf(c, attempts)[1..] == PiecesOf(c, rest);
      } else {
        assert PieceOf(c, a) == "" && [] + PiecesOf(c, rest) == PiecesOf(c, rest);
      }
    }
  }

  /** Pieces at the end of a log hold no event, or that of a single one which lacks but its newline. */
  lemma EventsOfPieces(c: Codec, es: seq<Event>, pieces: seq<string>, e: Event, k: nat)
    requires ValidCodec(c) && AllWritable(c, es) && Pieces(c, pieces) && Writable(c, e)
    requires 0 < k <= |c.encode(e)| && pieces != [] && pieces[0] == Torn(c, e, k) && |Glue(pieces)| < MAX_TOKEN
    ensures EventsOf(c, LogText(c, es) + Glue(pieces))
         == Some(if k == |c.encode(e)| && |pieces| == 1 then es + [e] else es)
  {
    var tail := Glue(pieces);
    GluePlain(c, pieces);
    EventsAfterLog(c, es, tail);
    Termination(LogText(c, es), tail);
    assert !EndsWithNewline(tail) by {
      assert tail[|tail| - 1] in tail;
    }
    assert es + [] == es;
    if |pieces| == 1 {
      assert pieces[1..] == [] && tail == Torn(c, e, k);
      EventsOfTornLine(c, e, k);
    } else {
      ScanLine(tail, "");
      GluedLine(c, pieces);
      assert [tail][1..] == [];
    }
  }

  /** A line that begins with a piece of an earlier one, once it is finished, makes the log unreadable. */
  lemma {:induction false} PiecesFatal(c: Codec, es: seq<Event>, pieces: seq<string>, attempts: seq<Attempt>, live: Live)
    requires ValidCodec(c) && Pieces(c, pieces) && pieces != [] && !NoneWhole(c, attempts)
    ensures ReplayText(c, LogText(c, es) + (Glue(pieces) + AttemptText(c, attempts)), live) == Err
    decreases |attempts|
  {
    hide ReplayText, ValidCodec, IsPiece;
    var a, rest, start := attempts[0], attempts[1..], Glue(pieces);
    if Whole(c, a) {
      hide AttemptText, Glue, DecodeLine;
      WholeLine(c, pieces, a);
      NoNewlines(c, es);
      var bad, after := start + c.encode(a.event), AttemptText(c, rest);
      MalformedLineFatal(c, Lines(c, es), bad, after, live);
      AttemptTextCons(c, attempts);
      assert start + (c.encode(a.event) + "\n" + after) == bad + "\n" + after;
    } else {
      assert !NoneWhole(c, rest) by {
        var i :| 0 <= i < |attempts| && Whole(c, attempts[i]);
        assert rest[i - 1] == attempts[i];
      }
      if Partial(c, a) {
        assert PieceOf(c, a) == Torn(c, a.event, a.written);
        assert IsPiece(c, PieceOf(c, a)) by {
          PartialPiece(c, a);
        }
        PiecesFatal(c, es, pieces + [PieceOf(c, a)], rest, live);
        GlueSnoc(pieces, PieceOf(c, a));
        Assoc(start, PieceOf(c, a), AttemptText(c, rest));
      } else {
        PiecesFatal(c, es, pieces, rest, live);
        assert PieceOf(c, a) == "" && "" + AttemptText(c, rest) == AttemptText(c, rest);
      }
    }
  }

  lemma PartialPiece(c: Codec, a: Attempt)
    requires Partial(c, a)
    ensures IsPiece(c, PieceOf(c, a)) && PieceOf(c, a) == Torn(c, a.event, a.written)
  {
  }

  lemma AttemptTextCons(c: Codec, attempts: seq<Attempt>)
    requires attempts != [] && Whole(c, attempts[0])
    ensures AttemptText(c, attempts) == c.encode(attempts[0].event) + "\n" + AttemptText(c, attempts[1..])
  {
  }

  lemma WholeLine(c: Codec, pieces: seq<string>, a: Attempt)
    requires ValidCodec(c) && Pieces(c, pieces) && pieces != []
    ensures var line := Glue(pieces) + c.encode(a.event); '\n' !in line && DecodeLine(c, DropCR(line)) == None
  {
    var last := c.encode(a.event);
    EncodedLine(c, a.event);
    assert last == Torn(c, a.event, |last|);
    var all := pieces + [last];
    assert IsPiece(c, last);
    hide ValidCodec, IsPiece, Torn, IsSpace;
    assert Pieces(c, all);
    GlueSnoc(pieces, last);
    GluePlain(c, all);
    GluedLine(c, all);
  }

  lemma NoNewlines(c: Codec, es: seq<Event>)
    requires ValidCodec(c)
    ensures forall i :: 0 <= i < |es| ==> '\n' !in Lines(c, es)[i]
  {
  }

  lemma CleanCons(c: Codec, attempts: seq<Attempt>)
    requires attempts != []
    ensures Clean(c, attempts) <==>
              Clean(c, attempts[1..]) && (Partial(c, attempts[0]) ==> NoneWhole(c, attempts[1..]))
  {
    var rest := attempts[1..];
    assert forall i :: 0 <= i < |rest| ==> rest[i] == attempts[i + 1];
    assert forall j :: 0 < j < |attempts| ==> attempts[j] == rest[j - 1];
  }

  /** A log after any series of appends can be read exactly when none of them went through after one that had stopped
      inside its line, and then it holds exactly the events that were written whole. */
  lemma {:induction false} AttemptsReadIff(c: Codec, es: seq<Event>, attempts: seq<Attempt>)
    requires ValidCodec(c) && AllWritable(c, es) && AttemptsFit(c, attempts)
    ensures EventsOf(c, LogText(c, es) + AttemptText(c, attempts))
         == if Clean(c, attempts) then Some(es + Kept(c, attempts)) else None
    decreases |attempts|
  {
    hide EventsOf, ValidCodec, IsPiece, LogText, Writable;
    if attempts == [] {
      assert es + [] == es && LogText(c, es) + "" == LogText(c, es);
      WholeLog(c, es);
    } else {
      var a, rest := attempts[0], attempts[1..];
      CleanCons(c, attempts);
      FitCons(c, attempts);
      if Whole(c, a) {
        AttemptsReadIff(c, es + [a.event], rest);
        WholeFirst(c, es, attempts);
        Assoc(es, [a.event], Kept(c, rest));
      } else if Partial(c, a) {
        PartialFirst(c, es, attempts);
      } else {
        AttemptsReadIff(c, es, rest);
        assert PieceOf(c, a) == "" && "" + AttemptText(c, rest) == AttemptText(c, rest);
      }
    }
  }

  lemma WholeFirst(c: Codec, es: seq<Event>, attempts: seq<Attempt>)
    requires attempts != [] && Whole(c, attempts[0])
    ensures LogText(c, es) + AttemptText(c, attempts)
         == LogText(c, es + [attempts[0].event]) + AttemptText(c, attempts[1..])
  {
    hide LogText;
    LogTextSnoc(c, es, attempts[0].event);
    AttemptTextCons(c, attempts);
    hide AttemptText;
    var line := c.encode(attempts[0].event) + "\n";
    assert LogText(c, es) + c.encode(attempts[0].event) + "\n" == LogText(c, es) + line;
    Assoc(LogText(c, es), line, AttemptText(c, attempts[1..]));
  }

  lemma WholeLog(c: Codec, es: seq<Event>)
    requires ValidCodec(c) && AllWritable(c, es)
    ensures EventsOf(c, LogText(c, es)) == Some(es)
  {
    EventsAfterLog(c, es, "");
    assert LogText(c, es) + "" == LogText(c, es) && es + [] == es;
  }

  lemma FitCons(c: Codec, attempts: seq<Attempt>)
    requires AttemptsFit(c, attempts) && attempts != []
    ensures Writable(c, attempts[0].event) && AttemptsFit(c, attempts[1..])
  {
    var rest := attempts[1..];
    assert forall i :: 0 <= i < |rest| ==> rest[i] == attempts[i + 1];
    if Partial(c, attempts[0]) {
      assert PiecesOf(c, attempts)[1..] == PiecesOf(c, rest);
    } else {
      assert [] + PiecesOf(c, rest) == PiecesOf(c, rest);
    }
  }

  lemma PartialFirst(c: Codec, es: seq<Event>, attempts: seq<Attempt>)
    requires ValidCodec(c) && AllWritable(c, es) && AttemptsFit(c, attempts)
    requires attempts != [] && Partial(c, attempts[0])
    ensures EventsOf(c, LogText(c, es) + AttemptText(c, attempts))
         == if NoneWhole(c, attempts[1..]) then Some(es + Kept(c, attempts)) else None
  {
    hide EventsOf, ValidCodec, IsPiece, LogText, Writable, ReplayText, PieceOf;
    var a, rest := attempts[0], attempts[1..];
    PartialPiece(c, a);
    var piece := PieceOf(c, a);
    if NoneWhole(c, rest) {
      var pieces := PiecesOf(c, attempts);
      TextOfPieces(c, attempts);
      assert pieces == [piece] + PiecesOf(c, rest);
      FitCons(c, attempts);
      EventsOfPieces(c, es, pieces, a.event, a.written);
      assert es + [] == es;
    } else {
      GlueOne(piece);
      PiecesFatal(c, es, [piece], rest, map[]);
      ReplayTextIsFold(c, LogText(c, es) + AttemptText(c, attempts), map[]);
    }
  }

  lemma GlueOne(p: string)
    ensures Glue([p]) == p
  {
    assert [p][1..] == [] && p + "" == p;
  }
}
