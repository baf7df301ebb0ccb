/** Small stock definitions. */
module Wrappers {
  datatype Option<+T> = None | Some(value: T)

  function Max(a: nat, b: nat): nat {
    if a > b then a else b
  }
}

/** Counting the members of a sequence: of entries by stage, of threads by what they hold. */
module Counting {

  function Weight<T(!new)>(s: seq<T>, f: T -> nat): nat {
    if s == [] then 0 else f(s[0]) + Weight(s[1..], f)
  }

  lemma {:induction false} WeightUpdate<T(!new)>(s: seq<T>, i: nat, x: T, f: T -> nat)
    requires i < |s|
    ensures Weight(s[i := x], f) + f(s[i]) == Weight(s, f) + f(x)
  {
    if i == 0 {
      assert s[i := x][1..] == s[1..];
    } else {
      assert s[i := x][1..] == s[1..][i - 1 := x];
      WeightUpdate(s[1..], i - 1, x, f);
    }
  }

  lemma {:induction false} WeightSnoc<T(!new)>(s: seq<T>, x: T, f: T -> nat)
    ensures Weight(s + [x], f) == Weight(s, f) + f(x)
  {
    if s == [] {
      assert s + [x] == [x];
      assert Weight([x], f) == f(x) + Weight([], f);
    } else {
      assert (s + [x])[1..] == s[1..] + [x];
      WeightSnoc(s[1..], x, f);
    }
  }

  lemma {:induction false} WeightAtLeast<T(!new)>(s: seq<T>, i: nat, f: T -> nat)
    requires i < |s|
    ensures Weight(s, f) >= f(s[i])
  {
    if i == 0 {
    } else {
      WeightAtLeast(s[1..], i - 1, f);
    }
  }

  lemma {:induction false} WeightAtLeastTwo<T(!new)>(s: seq<T>, i: nat, j: nat, f: T -> nat)
    requires i < j < |s|
    ensures Weight(s, f) >= f(s[i]) + f(s[j])
  {
    if i == 0 {
      WeightAtLeast(s[1..], j - 1, f);
    } else {
      WeightAtLeastTwo(s[1..], i - 1, j - 1, f);
    }
  }

  lemma {:induction false} WeightPositive<T(!new)>(s: seq<T>, f: T -> nat) returns (i: nat)
    requires Weight(s, f) > 0
    ensures i < |s| && f(s[i]) > 0
  {
    if f(s[0]) > 0 {
      i := 0;
    } else {
      i := WeightPositive(s[1..], f);
      i := i + 1;
    }
  }

  lemma {:induction false} WeightSame<T(!new)>(s: seq<T>, r: seq<T>, f: T -> nat)
    requires |s| == |r| && forall i :: 0 <= i < |s| ==> f(s[i]) == f(r[i])
    ensures Weight(s, f) == Weight(r, f)
  {
    if s == [] {
    } else {
      WeightSame(s[1..], r[1..], f);
    }
  }
}

/** Natural numbers in decimal, and back. */
module Decimals {
  import opened Wrappers

  predicate IsDigit(c: char) {
    '0' <= c <= '9'
  }

  function DigitOf(n: nat): (c: char)
    requires n < 10
    ensures IsDigit(c) && ValueOf(c) == n
  {
    '0' + n as char
  }

  function ValueOf(c: char): nat
    requires IsDigit(c)
  {
    (c - '0') as nat
  }

  function Decimal(n: nat): (s: string)
    ensures s != "" && forall i :: 0 <= i < |s| ==> IsDigit(s[i])
  {
    if n < 10 then [DigitOf(n)] else Decimal(n / 10) + [DigitOf(n % 10)]
  }

  /** An unsigned decimal number without sign; None for anything else. */
  function ParseDigits(s: string): Option<nat> {
    if s == "" || !IsDigit(s[|s| - 1]) then None
    else if |s| == 1 then Some(ValueOf(s[0]))
    else match ParseDigits(s[..|s| - 1])
      case None => None
      case Some(n) => Some(10 * n + ValueOf(s[|s| - 1]))
  }

  lemma {:induction false} DecimalParses(n: nat)
    ensures ParseDigits(Decimal(n)) == Some(n)
  {
    if n < 10 {
    } else {
      DecimalParses(n / 10);
      var s := Decimal(n);
      assert s[..|s| - 1] == Decimal(n / 10);
    }
  }
}
