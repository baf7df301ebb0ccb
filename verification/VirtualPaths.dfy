/** Virtual paths as segment sequences, and the proof that the string code computes on them. */
module VirtualPaths {

  /** A cleaned virtual path, split at its slashes. A directory marker key ends in an empty segment. */
  type Path = seq<string>

  /** The entries a rename of `src` carries along: `src` itself and, for a directory, all below it. */
  predicate Matches(p: Path, src: Path, isDir: bool) {
    p == src || (isDir && src < p)
  }

  predicate Incomparable(a: Path, b: Path) {
    !(a <= b) && !(b <= a)
  }

  /** A rename whose source and target do not overlap. */
  predicate Apart(src: Path, dst: Path, isDir: bool) {
    if isDir then Incomparable(src, dst) else src != dst
  }

  function Rebase(p: Path, src: Path, dst: Path): Path
    requires src <= p
  {
    dst + p[|src|..]
  }

  function RebaseIfBelow(p: Path, src: Path, dst: Path): Path {
    if src <= p then Rebase(p, src, dst) else p
  }

  function Parent(p: Path): Path {
    if p == [] then [] else p[..|p| - 1]
  }

  /** One rename as a path function: matched paths are rebased, all others stay. */
  function Renamed(p: Path, src: Path, dst: Path, isDir: bool): Path {
    if Matches(p, src, isDir) then Rebase(p, src, dst) else p
  }

  lemma RebaseInjective(p: Path, q: Path, src: Path, dst: Path)
    requires src <= p && src <= q && Rebase(p, src, dst) == Rebase(q, src, dst)
    ensures p == q
  {
    assert p == src + Rebase(p, src, dst)[|dst|..];
    assert q == src + Rebase(q, src, dst)[|dst|..];
  }

  lemma PrefixTransitive(a: Path, b: Path, c: Path)
    ensures a <= b && b <= c ==> a <= c
  {
    if a <= b && b <= c {
      assert a == b[..|a|] == c[..|a|];
    }
  }

  /** Two prefixes of one path are comparable. */
  lemma PrefixesCompare(p: Path, a: Path, b: Path)
    requires a <= p && b <= p
    ensures !Incomparable(a, b)
  {
    if |a| <= |b| {
      assert a == p[..|a|] == b[..|a|];
    } else {
      assert b == p[..|b|] == a[..|b|];
    }
  }

  /** A rebased path has left the source, and the opposite rename brings it back. */
  lemma RebaseInverse(p: Path, src: Path, dst: Path, isDir: bool)
    requires Matches(p, src, isDir) && Apart(src, dst, isDir)
    ensures var q := Rebase(p, src, dst); Matches(q, dst, isDir) && !Matches(q, src, isDir) && Rebase(q, dst, src) == p
    ensures !Matches(p, dst, isDir)
  {
    var q := Rebase(p, src, dst);
    assert q[..|dst|] == dst && q[|dst|..] == p[|src|..];
    assert src + p[|src|..] == p;
    if src <= q {
      PrefixesCompare(q, src, dst);
    }
    if dst <= p {
      PrefixesCompare(p, src, dst);
    }
  }

  // ---------------------------------------------------------------- dropping a subtree from a path map

  function Without<T>(m: map<Path, T>, p: Path, isDir: bool): map<Path, T> {
    map k | k in m && !Matches(k, p, isDir) :: m[k]
  }

  method DropAtOrBelow<T>(m: map<Path, T>, p: Path) returns (r: map<Path, T>)
    ensures r == Without(m, p, true)
  {
    r := m;
    var todo := m.Keys;
    while todo != {}
      invariant todo <= m.Keys
      invariant r == map k | k in m && (k in todo || !Matches(k, p, true)) :: m[k]
      decreases |todo|
    {
      var key :| key in todo;
      todo := todo - {key};
      if Matches(key, p, true) {
        r := r - {key};
      }
    }
  }

  // ---------------------------------------------------------------- re-keying a path map

  predicate AllMatch(keys: set<Path>, src: Path, isDir: bool) {
    forall k :: k in keys ==> Matches(k, src, isDir)
  }

  /** A path map after a rename has carried the keys `moved` to their targets and dropped the keys `gone`. */
  function Rekey<T>(m: map<Path, T>, moved: set<Path>, gone: set<Path>, src: Path, dst: Path): map<Path, T> {
    (map k | k in m && k !in moved && k !in gone :: m[k])
    + (map t | t in Targets(moved, src, dst) && dst <= t && Rebase(t, dst, src) in m :: m[Rebase(t, dst, src)])
  }

  function Targets(moved: set<Path>, src: Path, dst: Path): set<Path> {
    set k | k in moved && src <= k :: Rebase(k, src, dst)
  }

  lemma TargetsAt(moved: set<Path>, src: Path, dst: Path, isDir: bool, t: Path)
    requires Apart(src, dst, isDir) && AllMatch(moved, src, isDir)
    ensures t in Targets(moved, src, dst) <==> Matches(t, dst, isDir) && Rebase(t, dst, src) in moved
  {
    if t in Targets(moved, src, dst) {
      var k :| k in moved && src <= k && t == Rebase(k, src, dst);
      RebaseInverse(k, src, dst, isDir);
    }
    if Matches(t, dst, isDir) {
      RebaseInverse(t, dst, src, isDir) by {
        assert Apart(dst, src, isDir);
      }
    }
  }

  /** Each target reads what its source key read; a key neither moved nor dropped, nor a target, is unchanged. */
  lemma RekeyAt<T>(m: map<Path, T>, moved: set<Path>, gone: set<Path>, src: Path, dst: Path, isDir: bool, t: Path)
    requires Apart(src, dst, isDir) && AllMatch(moved, src, isDir) && moved <= m.Keys
    ensures var r := Rekey(m, moved, gone, src, dst);
            if Matches(t, dst, isDir) && Rebase(t, dst, src) in moved then t in r && r[t] == m[Rebase(t, dst, src)]
            else (t in r <==> t in m && t !in moved && t !in gone) && (t in r ==> r[t] == m[t])
  {
    TargetsAt(moved, src, dst, isDir, t);
  }

  /** One step of a re-keying loop: carry the key `k`. */
  lemma RekeyMove<T>(m: map<Path, T>, moved: set<Path>, gone: set<Path>, src: Path, dst: Path, isDir: bool, k: Path)
    requires Apart(src, dst, isDir) && AllMatch(moved + {k}, src, isDir) && moved <= m.Keys
    requires k in m && k !in moved && k !in gone
    ensures var r := Rekey(m, moved, gone, src, dst);
            && k in r && r[k] == m[k]
            && Rekey(m, moved + {k}, gone, src, dst) == (r - {k})[Rebase(k, src, dst) := m[k]]
  {
    hide Rekey;
    var r, next := Rekey(m, moved, gone, src, dst), Rekey(m, moved + {k}, gone, src, dst);
    RebaseInverse(k, src, dst, isDir);
    RekeyAt(m, moved, gone, src, dst, isDir, k);
    forall t
      ensures t in next <==> t in (r - {k})[Rebase(k, src, dst) := m[k]]
      ensures t in next ==> next[t] == (r - {k})[Rebase(k, src, dst) := m[k]][t]
    {
      RekeyAt(m, moved, gone, src, dst, isDir, t);
      RekeyAt(m, moved + {k}, gone, src, dst, isDir, t);
      if Matches(t, dst, isDir) && Rebase(t, dst, src) == k {
        RebaseBack(t, dst, src, isDir);
      }
    }
  }

  lemma RebaseBack(t: Path, dst: Path, src: Path, isDir: bool)
    requires Matches(t, dst, isDir) && Apart(src, dst, isDir)
    ensures Rebase(Rebase(t, dst, src), src, dst) == t && Matches(Rebase(t, dst, src), src, isDir)
  {
    assert Apart(dst, src, isDir);
    RebaseInverse(t, dst, src, isDir);
  }

  /** One step of a re-keying loop: drop the key `k`. */
  lemma RekeyDrop<T>(m: map<Path, T>, moved: set<Path>, gone: set<Path>, src: Path, dst: Path, isDir: bool, k: Path)
    requires Apart(src, dst, isDir) && AllMatch(moved, src, isDir) && moved <= m.Keys
    requires k in m && k !in moved && k !in gone && Matches(k, src, isDir)
    ensures var r := Rekey(m, moved, gone, src, dst);
            && k in r && r[k] == m[k] && Rekey(m, moved, gone + {k}, src, dst) == r - {k}
  {
    var r, next := Rekey(m, moved, gone, src, dst), Rekey(m, moved, gone + {k}, src, dst);
    RebaseInverse(k, src, dst, isDir);
    RekeyAt(m, moved, gone, src, dst, isDir, k);
    forall t
      ensures t in next <==> t in r - {k}
      ensures t in next ==> next[t] == r[t]
    {
      RekeyAt(m, moved, gone, src, dst, isDir, t);
      RekeyAt(m, moved, gone + {k}, src, dst, isDir, t);
    }
  }

  /** Of the keys `done`, the matched ones whose target is free, which a rename carries along, and those whose
      target is taken, which it drops. */
  function Carried(done: set<Path>, keys: set<Path>, src: Path, dst: Path, isDir: bool): set<Path> {
    set k | k in done && Matches(k, src, isDir) && Rebase(k, src, dst) !in keys
  }

  function Dropped(done: set<Path>, keys: set<Path>, src: Path, dst: Path, isDir: bool): set<Path> {
    set k | k in done && Matches(k, src, isDir) && Rebase(k, src, dst) in keys
  }

  /** One step of a loop that carries the key `k` when its target is free and drops it otherwise. */
  lemma RekeyStep<T>(m: map<Path, T>, done: set<Path>, src: Path, dst: Path, isDir: bool, k: Path)
    requires Apart(src, dst, isDir) && done <= m.Keys && k in m && k !in done && Matches(k, src, isDir)
    ensures var keys := m.Keys;
            var r := Rekey(m, Carried(done, keys, src, dst, isDir), Dropped(done, keys, src, dst, isDir), src, dst);
            var d := done + {k};
            && k in r && r[k] == m[k]
            && (Rebase(k, src, dst) in r <==> Rebase(k, src, dst) in m)
            && (Rebase(k, src, dst) in r ==> r[Rebase(k, src, dst)] == m[Rebase(k, src, dst)])
            && Rekey(m, Carried(d, keys, src, dst, isDir), Dropped(d, keys, src, dst, isDir), src, dst)
               == if Rebase(k, src, dst) in m then r - {k} else (r - {k})[Rebase(k, src, dst) := m[k]]
  {
    hide Rekey;
    var keys := m.Keys;
    var carried, dropped := Carried(done, keys, src, dst, isDir), Dropped(done, keys, src, dst, isDir);
    RekeyTargetTaken(m, carried, dropped, src, dst, isDir, k);
    if Rebase(k, src, dst) in keys {
      RekeyDrop(m, carried, dropped, src, dst, isDir, k);
      assert Carried(done + {k}, keys, src, dst, isDir) == carried;
      assert Dropped(done + {k}, keys, src, dst, isDir) == dropped + {k};
    } else {
      RekeyMove(m, carried, dropped, src, dst, isDir, k);
      assert Carried(done + {k}, keys, src, dst, isDir) == carried + {k};
      assert Dropped(done + {k}, keys, src, dst, isDir) == dropped;
    }
  }

  /** While such a loop runs, a target is taken exactly when it was taken at the start. */
  lemma RekeyTargetTaken<T>(m: map<Path, T>, moved: set<Path>, gone: set<Path>, src: Path, dst: Path, isDir: bool, k: Path)
    requires Apart(src, dst, isDir) && AllMatch(moved, src, isDir) && AllMatch(gone, src, isDir) && moved <= m.Keys
    requires Matches(k, src, isDir) && k !in moved
    ensures var t, r := Rebase(k, src, dst), Rekey(m, moved, gone, src, dst);
            (t in r <==> t in m) && (t in r ==> r[t] == m[t])
  {
    RebaseInverse(k, src, dst, isDir);
    RekeyAt(m, moved, gone, src, dst, isDir, Rebase(k, src, dst));
  }
}

/** The string functions of helpers.go and the segment paths they stand for. */
module RawPaths {
  import opened VirtualPaths

  /** The characters that Go's unicode.IsSpace accepts. */
  predicate IsSpace(c: char) {
    c in {'\t', '\n', '\U{B}', '\U{C}', '\r', ' ', '\U{85}', '\U{A0}', '\U{1680}', '\U{2028}', '\U{2029}',
          '\U{202F}', '\U{205F}', '\U{3000}'} || '\U{2000}' <= c <= '\U{200A}'
  }

  predicate IsSlash(c: char) {
    c == '/'
  }

  function TrimLeft(s: string, drop: char -> bool): string {
    if s != "" && drop(s[0]) then TrimLeft(s[1..], drop) else s
  }

  function TrimRight(s: string, drop: char -> bool): string {
    if s != "" && drop(s[|s| - 1]) then TrimRight(s[..|s| - 1], drop) else s
  }

  function TrimBoth(s: string, drop: char -> bool): string {
    TrimRight(TrimLeft(s, drop), drop)
  }

  function TrimSpace(s: string): string {
    TrimBoth(s, IsSpace)
  }

  function CleanVirtualPath(value: string): string {
    var trimmed := TrimBoth(TrimSpace(value), IsSlash);
    if trimmed == "." then "" else trimmed
  }

  function TrimSuffixSlash(s: string): string {
    if s != "" && s[|s| - 1] == '/' then s[..|s| - 1] else s
  }

  function EnsureDirSuffix(value: string): string {
    var trimmed := TrimSuffixSlash(TrimSpace(value));
    if trimmed == "" then "" else trimmed + "/"
  }

  /** The position of the last slash, or -1. */
  function LastSlash(s: string): (i: int)
    ensures -1 <= i < |s|
    ensures i >= 0 ==> s[i] == '/'
    ensures forall j :: i < j < |s| ==> s[j] != '/'
  {
    if s == "" then -1 else if s[|s| - 1] == '/' then |s| - 1 else LastSlash(s[..|s| - 1])
  }

  function ParentVirtualPrefix(virtualPath: string): string {
    var clean := CleanVirtualPath(virtualPath);
    var index := LastSlash(clean);
    if index < 0 then "" else clean[..index]
  }

  predicate HasPrefix(s: string, prefix: string) {
    prefix <= s
  }

  /** Nonempty at both ends with characters that `drop` keeps. */
  predicate Tight(s: string, drop: char -> bool) {
    s != "" && !drop(s[0]) && !drop(s[|s| - 1])
  }

  lemma TrimTight(s: string, drop: char -> bool)
    ensures TrimBoth(s, drop) == "" || Tight(TrimBoth(s, drop), drop)
    ensures |TrimBoth(s, drop)| <= |s|
    ensures s != "" && !Tight(s, drop) ==> |TrimBoth(s, drop)| < |s|
    ensures s == "" || Tight(s, drop) ==> TrimBoth(s, drop) == s
  {
    TrimLeftFacts(s, drop);
    TrimRightFacts(TrimLeft(s, drop), drop);
  }

  lemma TrimLeftFacts(s: string, drop: char -> bool)
    ensures var t := TrimLeft(s, drop);
            && |t| <= |s|
            && (t == "" || (!drop(t[0]) && t[|t| - 1] == s[|s| - 1]))
            && (s != "" && drop(s[0]) ==> |t| < |s|)
  {
  }

  lemma TrimRightFacts(s: string, drop: char -> bool)
    ensures var t := TrimRight(s, drop);
            && |t| <= |s|
            && (t == "" || (!drop(t[|t| - 1]) && t[0] == s[0]))
            && (s != "" && drop(s[|s| - 1]) ==> |t| < |s|)
  {
  }

  /** Cleaning twice changes nothing exactly when the first pass leaves no space at either end. */
  lemma CleanIdempotentIff(value: string)
    ensures var t := TrimBoth(TrimSpace(value), IsSlash);
            CleanVirtualPath(CleanVirtualPath(value)) == CleanVirtualPath(value)
            <==> t == "" || Tight(t, IsSpace)
  {
    var t := TrimBoth(TrimSpace(value), IsSlash);
    TrimTight(TrimSpace(value), IsSlash);
    TrimTight(t, IsSpace);
    TrimTight(t, IsSlash);
    TrimTight(TrimSpace(t), IsSlash);
    TrimTight("", IsSpace);
    TrimTight("", IsSlash);
  }

  /** Strips a slash, a space and a slash, and then a second call strips the inner spaces. */
  lemma CleanNotIdempotent()
    ensures CleanVirtualPath("/ a /") == " a " && CleanVirtualPath(" a ") == "a"
  {
    var s := "/ a /";
    assert TrimLeft(s, IsSpace) == s && TrimRight(s, IsSpace) == s;
    assert s[1..] == " a /" && " a /"[..3] == " a ";
    assert TrimLeft(s, IsSlash) == TrimLeft(" a /", IsSlash) == " a /";
    assert TrimRight(" a /", IsSlash) == TrimRight(" a ", IsSlash) == " a ";
    assert " a "[1..] == "a " && "a "[..1] == "a";
    assert TrimLeft(" a ", IsSpace) == TrimLeft("a ", IsSpace) == "a ";
    assert TrimRight("a ", IsSpace) == TrimRight("a", IsSpace) == "a";
  }

  predicate ValidSegments(p: Path) {
    forall i :: 0 <= i < |p| ==> p[i] != "" && '/' !in p[i]
  }

  function Join(p: Path): (s: string)
  {
    if p == [] then "" else if |p| == 1 then p[0] else p[0] + "/" + Join(p[1..])
  }

  /** A path whose string form cleaning leaves alone. */
  predicate Canonical(p: Path) {
    ValidSegments(p) && p != [] && Tight(Join(p), IsSpace) && Join(p) != "."
  }

  lemma {:induction false} JoinSplit(a: Path, b: Path)
    requires a != [] && b != []
    ensures Join(a + b) == Join(a) + "/" + Join(b)
  {
    if |a| == 1 {
      assert (a + b)[1..] == b;
    } else {
      assert (a + b)[1..] == a[1..] + b;
      JoinSplit(a[1..], b);
    }
  }

  lemma {:induction false} JoinEnds(p: Path)
    requires ValidSegments(p) && p != []
    ensures Tight(Join(p), IsSlash)
  {
    if |p| == 1 {
    } else {
      JoinEnds(p[1..]);
      assert Join(p)[0] == p[0][0];
    }
  }

  lemma CleanJoin(p: Path)
    requires Canonical(p)
    ensures CleanVirtualPath(Join(p)) == Join(p)
    ensures EnsureDirSuffix(Join(p)) == Join(p) + "/"
  {
    JoinEnds(p);
    TrimTight(Join(p), IsSpace);
    TrimTight(Join(p), IsSlash);
  }

  /** The position of the first slash decides the first segment. */
  lemma SlashFree(a: string, b: string, x: string, y: string)
    requires '/' !in a && a + "/" + x <= b + y
    ensures |b| <= |a| || b[|a|] == '/'
  {
    assert (a + "/" + x)[|a|] == '/' == (b + y)[|a|];
  }

  lemma FirstSegment(a: string, b: string, x: string, y: string)
    requires '/' !in a && '/' !in b
    requires a + "/" + x <= b + y
    requires y == "" || y[0] == '/'
    ensures a == b && y != "" && x <= y[1..]
  {
    var l, r := a + "/" + x, b + y;
    SlashFree(a, b, x, y);
    assert |b| <= |a|;
    assert a + "/" == l[..|a| + 1] == r[..|a| + 1];
    assert y != "" && r[|b|] == y[0] == '/' == l[|b|];
    assert b == r[..|b|] == a[..|b|];
    assert forall i :: 0 <= i < |a| ==> l[i] == a[i] && l[i] != '/';
    assert r[|a| + 1..] == y[1..] && l[|a| + 1..] == x;
  }

  /** The string prefix test of the queues and caches is the strict ancestor test on segments. */
  lemma {:induction false} PrefixTestIsAncestor(p: Path, d: Path)
    requires ValidSegments(p) && ValidSegments(d) && d != []
    ensures HasPrefix(Join(p), Join(d) + "/") <==> d < p
  {
    if d < p {
      assert p == d + p[|d|..];
      JoinSplit(d, p[|d|..]);
    }
    if HasPrefix(Join(p), Join(d) + "/") {
      assert p != [];
      var y := if |p| == 1 then "" else "/" + Join(p[1..]);
      assert Join(p) == p[0] + y;
      var x := if |d| == 1 then "" else Join(d[1..]) + "/";
      assert Join(d) + "/" == d[0] + "/" + x;
      FirstSegment(d[0], p[0], x, y);
      if |d| == 1 {
      } else {
        PrefixTestIsAncestor(p[1..], d[1..]);
        assert d == [d[0]] + d[1..] && p == [p[0]] + p[1..];
      }
    }
  }

  lemma JoinHasSlash(p: Path)
    requires ValidSegments(p)
    ensures '/' in Join(p) <==> |p| > 1
  {
    if |p| > 1 {
      assert Join(p)[|p[0]|] == '/';
    }
  }

  /** A cleaned path names one segment path, so maps keyed by strings are maps keyed by segment paths. */
  lemma {:induction false} JoinInjective(p: Path, q: Path)
    requires ValidSegments(p) && ValidSegments(q) && Join(p) == Join(q)
    ensures p == q
  {
    if p == [] || q == [] {
      if p != [] { JoinEnds(p); }
      if q != [] { JoinEnds(q); }
    } else {
      JoinHasSlash(p);
      JoinHasSlash(q);
      if |p| > 1 {
        assert p[..1] == [p[0]] && ValidSegments(p[..1]);
        assert Join(p[..1]) + "/" <= Join(p);
        PrefixTestIsAncestor(q, p[..1]);
        assert q[0] == p[0] && |q| > 1;
        assert Join(p[1..]) == Join(p)[|p[0]| + 1..] == Join(q[1..]);
        JoinInjective(p[1..], q[1..]);
        assert p == [p[0]] + p[1..] && q == [q[0]] + q[1..];
      }
    }
  }

  /** Replacing the string prefix of a matched path is the rebase on segments. */
  lemma RebaseIsPrefixReplacement(p: Path, src: Path, dst: Path)
    requires src <= p && src != [] && dst != []
    ensures Join(src) <= Join(p)
    ensures Join(dst) + Join(p)[|Join(src)|..] == Join(Rebase(p, src, dst))
  {
    if src < p {
      var rest := p[|src|..];
      assert p == src + rest;
      JoinSplit(src, rest);
      JoinSplit(dst, rest);
      assert Join(p)[|Join(src)|..] == "/" + Join(rest);
    } else {
      assert p == src && Rebase(p, src, dst) == dst;
    }
  }

  lemma LastSlashIs(s: string, a: string, b: string)
    requires s == a + "/" + b && '/' !in b
    ensures LastSlash(s) == |a|
  {
    assert s[|a|] == '/';
    assert forall j :: |a| < j < |s| ==> s[j] == b[j - |a| - 1];
  }

  /** The parent prefix drops the last segment. */
  lemma ParentDropsLast(p: Path)
    requires Canonical(p)
    ensures ParentVirtualPrefix(Join(p)) == Join(p[..|p| - 1])
  {
    hide CleanVirtualPath, LastSlash, Join, IsSpace;
    CleanJoin(p);
    var front, last := p[..|p| - 1], p[|p| - 1];
    assert p == front + [last];
    JoinLast(front, last);
  }

  lemma JoinLast(front: Path, last: string)
    requires '/' !in last
    ensures var s := Join(front + [last]);
            Join(front) == if LastSlash(s) < 0 then "" else s[..LastSlash(s)]
  {
    if front == [] {
      assert front + [last] == [last];
    } else {
      JoinSplit(front, [last]);
      LastSlashIs(Join(front + [last]), Join(front), last);
    }
  }
}
