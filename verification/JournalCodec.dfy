/** An encoding that meets every assumption the journal makes about its own, so that none of them is empty. */
module JournalCodec {
  import opened Decimals
  import opened RawPaths
  import opened Wrappers
  import opened MutationLog

  function IntCode(n: int): string {
    if n < 0 then "-" + Decimal(-n) else Decimal(n)
  }

  /** Parts one after another, each with its separator. */
  function Chain(parts: seq<string>, sep: char): string {
    if parts == [] then "" else parts[0] + [sep] + Chain(parts[1..], sep)
  }

  function CharCodes(s: string): (codes: seq<string>)
    ensures |codes| == |s| && forall i :: 0 <= i < |s| ==> codes[i] == Decimal(s[i] as int)
  {
    if s == "" then [] else [Decimal(s[0] as int)] + CharCodes(s[1..])
  }

  function TextCode(s: string): string {
    Chain(CharCodes(s), ',')
  }

  function Fields(e: Event): seq<string> {
    var r := e.record;
    [TextCode(e.kind), IntCode(r.version), TextCode(r.scope), TextCode(r.id), TextCode(r.taskId), TextCode(r.kind),
     TextCode(r.oldVirtualPath), TextCode(r.newVirtualPath), TextCode(r.oldLocalPath), TextCode(r.newLocalPath),
     IntCode(if r.isDirectory then 1 else 0), IntCode(r.uploadGeneration), IntCode(r.retryCount),
     IntCode(r.nextAttemptUnixNs), TextCode(r.lastError), IntCode(r.updatedAtUnixNs)]
  }

  function Encode(e: Event): string {
    "{" + Chain(Fields(e), ';') + "}"
  }

  ghost function Decode(s: string): Option<Event> {
    if exists e :: Encode(e) == s then
      var e :| Encode(e) == s;
      Some(e)
    else None
  }

  predicate Plain(s: string) {
    forall i :: 0 <= i < |s| ==> IsDigit(s[i]) || s[i] == '-' || s[i] == ','
  }

  lemma {:induction false} ChainInjective(a: seq<string>, b: seq<string>, sep: char)
    requires (forall i :: 0 <= i < |a| ==> sep !in a[i]) && forall i :: 0 <= i < |b| ==> sep !in b[i]
    requires Chain(a, sep) == Chain(b, sep)
    ensures a == b
  {
    if a == [] || b == [] {
      assert a == [] && b == [];
    } else {
      var s, x, y := Chain(a, sep), Chain(a[1..], sep), Chain(b[1..], sep);
      FirstPart(a[0], b[0], x, y, sep);
      FirstPart(b[0], a[0], y, x, sep);
      assert a[0] == s[..|a[0]|] && b[0] == s[..|b[0]|];
      assert x == s[|a[0]| + 1..] && y == s[|b[0]| + 1..];
      ChainInjective(a[1..], b[1..], sep);
      assert a == [a[0]] + a[1..] && b == [b[0]] + b[1..];
    }
  }

  lemma FirstPart(a: string, b: string, x: string, y: string, sep: char)
    requires sep !in a && a + [sep] + x == b + [sep] + y
    ensures |a| <= |b|
  {
    assert (b + [sep] + y)[|b|] == sep == (a + [sep] + x)[|b|];
  }

  lemma DecimalInjective(m: nat, n: nat)
    requires Decimal(m) == Decimal(n)
    ensures m == n
  {
    DecimalParses(m);
    DecimalParses(n);
  }

  lemma IntInjective(m: int, n: int)
    requires IntCode(m) == IntCode(n)
    ensures m == n
  {
    assert IsDigit(IntCode(m)[0]) <==> m >= 0;
    assert IsDigit(IntCode(n)[0]) <==> n >= 0;
    if m < 0 {
      assert IntCode(m)[1..] == Decimal(-m) && IntCode(n)[1..] == Decimal(-n);
      DecimalInjective(-m, -n);
    } else {
      DecimalInjective(m, n);
    }
  }

  lemma TextInjective(s: string, t: string)
    requires TextCode(s) == TextCode(t)
    ensures s == t
  {
    ChainInjective(CharCodes(s), CharCodes(t), ',');
    forall i | 0 <= i < |s|
      ensures s[i] == t[i]
    {
      DecimalInjective(s[i] as int, t[i] as int);
    }
  }

  lemma {:induction false} ChainPlain(parts: seq<string>)
    requires forall i :: 0 <= i < |parts| ==> Plain(parts[i])
    ensures Plain(Chain(parts, ','))
  {
    if parts == [] {
    } else {
      ChainPlain(parts[1..]);
    }
  }

  lemma FieldPlain(e: Event, i: nat)
    requires i < |Fields(e)|
    ensures Plain(Fields(e)[i])
  {
    hide Chain, Decimal, CharCodes;
    forall s: string
      ensures Plain(Chain(CharCodes(s), ','))
    {
      ChainPlain(CharCodes(s));
    }
  }

  predicate InBody(c: char) {
    IsDigit(c) || c == '-' || c == ',' || c == ';'
  }

  /** Only digits, signs and separators stand between the braces. */
  lemma {:induction false} BodyChars(parts: seq<string>, i: nat)
    requires (forall k :: 0 <= k < |parts| ==> Plain(parts[k])) && i < |Chain(parts, ';')|
    ensures InBody(Chain(parts, ';')[i])
  {
    var s := Chain(parts, ';');
    assert s == parts[0] + [';'] + Chain(parts[1..], ';');
    if i <= |parts[0]| {
    } else {
      BodyChars(parts[1..], i - |parts[0]| - 1);
    }
  }

  predicate Middle(c: char) {
    c != '{' && c != '}' && !IsSpace(c)
  }

  /** A brace opens an encoding, a brace closes it, and there is no other, nor any space. */
  lemma EncodedShape(e: Event)
    ensures var s := Encode(e);
            |s| >= 2 && s[0] == '{' && s[|s| - 1] == '}' && forall i :: 0 < i < |s| - 1 ==> Middle(s[i])
  {
    var s, body := Encode(e), Chain(Fields(e), ';');
    forall i | 0 < i < |s| - 1
      ensures Middle(s[i])
    {
      hide Fields, Chain;
      forall k | 0 <= k < |Fields(e)|
        ensures Plain(Fields(e)[k])
      {
        FieldPlain(e, k);
      }
      BodyChars(Fields(e), i - 1);
      assert s[i] == body[i - 1];
    }
  }

  lemma EncodeInjective(e: Event, f: Event)
    requires Encode(e) == Encode(f)
    ensures e == f
  {
    var a, b := Fields(e), Fields(f);
    forall i | 0 <= i < |a|
      ensures ';' !in a[i] && ';' !in b[i]
    {
      FieldPlain(e, i);
      FieldPlain(f, i);
    }
    hide Fields, Chain;
    assert Chain(a, ';') == Encode(e)[1..|Encode(e)| - 1] == Encode(f)[1..|Encode(f)| - 1] == Chain(b, ';');
    ChainInjective(a, b, ';');
    SameFields(e, f);
  }

  lemma SameFields(e: Event, f: Event)
    requires Fields(e) == Fields(f)
    ensures e == f
  {
    hide TextCode, IntCode;
    var a, b, r, q := Fields(e), Fields(f), e.record, f.record;
    assert forall i :: 0 <= i < 16 ==> a[i] == b[i];
    TextInjective(e.kind, f.kind) by { assert a[0] == b[0]; }
    IntInjective(r.version, q.version) by { assert a[1] == b[1]; }
    TextInjective(r.scope, q.scope) by { assert a[2] == b[2]; }
    TextInjective(r.id, q.id) by { assert a[3] == b[3]; }
    TextInjective(r.taskId, q.taskId) by { assert a[4] == b[4]; }
    TextInjective(r.kind, q.kind) by { assert a[5] == b[5]; }
    TextInjective(r.oldVirtualPath, q.oldVirtualPath) by { assert a[6] == b[6]; }
    TextInjective(r.newVirtualPath, q.newVirtualPath) by { assert a[7] == b[7]; }
    TextInjective(r.oldLocalPath, q.oldLocalPath) by { assert a[8] == b[8]; }
    TextInjective(r.newLocalPath, q.newLocalPath) by { assert a[9] == b[9]; }
    IntInjective(if r.isDirectory then 1 else 0, if q.isDirectory then 1 else 0) by { assert a[10] == b[10]; }
    IntInjective(r.uploadGeneration, q.uploadGeneration) by { assert a[11] == b[11]; }
    IntInjective(r.retryCount, q.retryCount) by { assert a[12] == b[12]; }
    IntInjective(r.nextAttemptUnixNs, q.nextAttemptUnixNs) by { assert a[13] == b[13]; }
    TextInjective(r.lastError, q.lastError) by { assert a[14] == b[14]; }
    IntInjective(r.updatedAtUnixNs, q.updatedAtUnixNs) by { assert a[15] == b[15]; }
  }

  lemma DecodeEncode(e: Event)
    ensures Decode(Encode(e)) == Some(e)
  {
    var f := Decode(Encode(e)).value;
    assert Encode(f) == Encode(e);
    EncodeInjective(f, e);
  }

  /** What does not end with its only closing brace, or has a second opening one, is no encoding. */
  lemma NotEncoded(s: string)
    requires s == "" || s[|s| - 1] != '}' || exists i :: 0 < i < |s| && s[i] == '{'
    ensures Decode(s) == None
  {
    if e :| Encode(e) == s {
      EncodedShape(e);
    }
  }

  lemma TornUnreadable(e: Event, k: nat)
    requires 0 < k < |Encode(e)|
    ensures Decode(TrimSpace(Encode(e)[..k])) == None
  {
    EncodedShape(e);
    var torn := Encode(e)[..k];
    assert !IsSpace('{');
    assert torn[0] == '{' && (k > 1 ==> torn[k - 1] == Encode(e)[k - 1]);
    TrimTight(torn, IsSpace);
    NotEncoded(torn);
  }

  lemma PieceShape(c: Codec, p: string)
    requires c.encode == Encode && IsPiece(c, p)
    ensures p != "" && p[0] == '{' && forall i :: 0 <= i < |p| ==> !IsSpace(p[i])
  {
    assert !IsSpace('{') && !IsSpace('}');
    hide IsSpace, Encode;
    var e, k: nat :| 0 < k <= |Encode(e)| && p == Torn(c, e, k);
    EncodedShape(e);
    forall i | 0 <= i < |p|
      ensures !IsSpace(p[i])
    {
      assert p[i] == Encode(e)[i];
    }
  }

  lemma {:induction false} GlueShape(c: Codec, pieces: seq<string>)
    requires c.encode == Encode && Pieces(c, pieces)
    ensures forall i :: 0 <= i < |Glue(pieces)| ==> !IsSpace(Glue(pieces)[i])
    ensures pieces != [] ==> Glue(pieces) != "" && Glue(pieces)[0] == '{'
  {
    if pieces == [] {
    } else {
      assert IsPiece(c, pieces[0]);
      PieceShape(c, pieces[0]);
      assert Pieces(c, pieces[1..]) by {
        assert forall i :: 0 <= i < |pieces[1..]| ==> pieces[1..][i] == pieces[i + 1];
      }
      hide IsSpace, IsPiece;
      GlueShape(c, pieces[1..]);
    }
  }

  /** The second piece has an opening brace of its own. */
  lemma GluedUnreadable(c: Codec, pieces: seq<string>)
    requires c.encode == Encode && Pieces(c, pieces) && |pieces| >= 2
    ensures Decode(TrimSpace(Glue(pieces))) == None
  {
    var glued, rest := Glue(pieces), Glue(pieces[1..]);
    assert IsPiece(c, pieces[0]);
    PieceShape(c, pieces[0]);
    GlueShape(c, pieces);
    GlueShape(c, pieces[1..]) by {
      assert forall i :: 0 <= i < |pieces[1..]| ==> pieces[1..][i] == pieces[i + 1];
    }
    hide IsSpace;
    TrimTight(glued, IsSpace);
    assert glued[|pieces[0]|] == rest[0] == '{';
    NotEncoded(glued);
  }

  lemma EncodedTight(e: Event)
    ensures Tight(Encode(e), IsSpace) && '\n' !in Encode(e)
  {
    EncodedShape(e);
    assert !IsSpace('{') && !IsSpace('}') && IsSpace('\n');
  }

  /** The journal's assumptions about its encoding can be met. */
  lemma CodecExists()
    ensures exists c :: ValidCodec(c)
  {
    hide Encode, Decode, IsSpace, TrimSpace, IsPiece, Glue;
    var c := Codec(Encode, s => Decode(s));
    forall e
      ensures c.decode(c.encode(e)) == Some(e) && Tight(c.encode(e), IsSpace) && '\n' !in c.encode(e)
    {
      DecodeEncode(e);
      EncodedTight(e);
    }
    forall e, k: nat | 0 < k < |c.encode(e)|
      ensures c.decode(TrimSpace(Torn(c, e, k))) == None
    {
      TornUnreadable(e, k);
    }
    forall pieces | Pieces(c, pieces) && |pieces| >= 2
      ensures c.decode(TrimSpace(Glue(pieces))) == None
    {
      GluedUnreadable(c, pieces);
    }
    assert ValidCodec(c);
  }
}
