/** Sums of a weight over the elements of a sequence, the accounting tool of the step systems. */
module Sums {

  ghost function Sum<X>(f: X -> int, s: seq<X>): int {
    if s == [] then 0 else Sum(f, s[..|s| - 1]) + f(s[|s| - 1])
  }

  lemma {:induction false} SumAppend<X>(f: X -> int, a: seq<X>, b: seq<X>)
    ensures Sum(f, a + b) == Sum(f, a) + Sum(f, b)
  {
    if b == [] {
      assert a + b == a;
    } else {
      assert (a + b)[..|a + b| - 1] == a + b[..|b| - 1];
      SumAppend(f, a, b[..|b| - 1]);
    }
  }

  lemma {:induction false} SumOne<X>(f: X -> int, x: X)
    ensures Sum(f, [x]) == f(x)
  {
    assert [x][..0] == [];
  }

  lemma {:induction false} SumPush<X>(f: X -> int, s: seq<X>, x: X)
    ensures Sum(f, s + [x]) == Sum(f, s) + f(x)
  {
    assert (s + [x])[..|s|] == s;
  }

  lemma {:induction false} SumPopFirst<X>(f: X -> int, s: seq<X>)
    requires s != []
    ensures Sum(f, s) == f(s[0]) + Sum(f, s[1..])
  {
    assert s == [s[0]] + s[1..];
    SumAppend(f, [s[0]], s[1..]);
    SumOne(f, s[0]);
  }

  /** Replacing one element changes the sum by exactly the difference of the two weights. */
  lemma {:induction false} SumUpdate<X>(f: X -> int, s: seq<X>, i: nat, x: X)
    requires i < |s|
    ensures Sum(f, s[i := x]) == Sum(f, s) - f(s[i]) + f(x)
  {
    var last := |s| - 1;
    if i == last {
      assert s[i := x][..last] == s[..last];
    } else {
      assert s[i := x][..last] == s[..last][i := x];
      SumUpdate(f, s[..last], i, x);
    }
  }

  lemma {:induction false} SumZeros<X>(f: X -> int, s: seq<X>)
    requires forall i | 0 <= i < |s| :: f(s[i]) == 0
    ensures Sum(f, s) == 0
  {
    if s != [] { SumZeros(f, s[..|s| - 1]); }
  }

  lemma {:induction false} SumNonNegative<X>(f: X -> int, s: seq<X>)
    requires forall i | 0 <= i < |s| :: f(s[i]) >= 0
    ensures Sum(f, s) >= 0
    ensures forall i | 0 <= i < |s| :: f(s[i]) <= Sum(f, s)
  {
    if s != [] { SumNonNegative(f, s[..|s| - 1]); }
  }

  /** A positive sum of nonnegative weights has a positive term. */
  lemma {:induction false} SumPositive<X>(f: X -> int, s: seq<X>) returns (i: nat)
    requires Sum(f, s) > 0
    ensures i < |s| && f(s[i]) > 0
  {
    i := |s| - 1;
    if f(s[i]) <= 0 { i := SumPositive(f, s[..i]); }
  }
}
