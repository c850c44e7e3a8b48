/** The parser combinators of meta/parser_combinator.cpp: parsers as functions, and the loop of foldL. */
module Combinators {
  import opened Options

  /** A parsed value and the input that is left. */
  datatype Parsed<T> = Parsed(value: T, rest: string)

  type Parser<T> = string -> Option<Parsed<T>>

  ghost predicate IsSuffix(t: string, s: string) {
    |t| <= |s| && s[|s| - |t|..] == t
  }

  /** On success a suffix of the input is left. */
  ghost predicate KeepsSuffix<T(!new)>(p: Parser<T>) {
    forall s :: p(s).Some? ==> IsSuffix(p(s).value.rest, s)
  }

  /** On success a proper suffix of the input is left. */
  ghost predicate Consumes<T(!new)>(p: Parser<T>) {
    forall s :: p(s).Some? ==> IsSuffix(p(s).value.rest, s) && p(s).value.rest != s
  }

  lemma SuffixTransitive(a: string, b: string, c: string)
    requires IsSuffix(a, b) && IsSuffix(b, c)
    ensures IsSuffix(a, c)
  {
    assert c[|c| - |b|..][|b| - |a|..] == c[|c| - |a|..];
  }

  lemma ProperSuffixShorter(a: string, b: string)
    requires IsSuffix(a, b) && a != b
    ensures |a| < |b|
  {
    assert b[0..] == b;
  }

  // ----- The combinators -----

  function CharParser(c: char): Parser<char> {
    s => if s == [] || c != s[0] then None else Some(Parsed(s[0], s[1..]))
  }

  function Combine<A, B, C>(p: Parser<A>, q: Parser<B>, f: (A, B) -> C): Parser<C> {
    s => match p(s)
         case None => None
         case Some(a) => match q(a.rest)
                         case None => None
                         case Some(b) => Some(Parsed(f(a.value, b.value), b.rest))
  }

  function Default<T>(p: Parser<T>, value: T): Parser<T> {
    s => if p(s).None? then Some(Parsed(value, s)) else p(s)
  }

  function FoldL<T(!new), R>(p: Parser<T>, acc: R, f: (R, T) -> R, s: string): Parsed<R>
    requires Consumes(p)
    decreases |s|
  {
    match p(s)
    case None => Parsed(acc, s)
    case Some(r) => ProperSuffixShorter(r.rest, s); FoldL(p, f(acc, r.value), f, r.rest)
  }

  function AtLeastOne<T(!new), R>(p: Parser<T>, init: R, f: (R, T) -> R): Parser<R>
    requires Consumes(p)
  {
    s => match p(s)
         case None => None
         case Some(r) => Some(FoldL(p, f(init, r.value), f, r.rest))
  }

  // ----- foldL is the left fold over the maximal run of successes -----

  /** The inputs the parser was applied to one after another; it succeeds on all but the last. */
  ghost predicate MaximalRun<T>(p: Parser<T>, inputs: seq<string>, values: seq<T>) {
    && |inputs| == |values| + 1
    && (forall i | 0 <= i < |values| :: p(inputs[i]) == Some(Parsed(values[i], inputs[i + 1])))
    && p(inputs[|values|]).None?
  }

  /** f(...f(f(acc, values[0]), values[1])..., values[last]). */
  ghost function FoldLeft<T, R>(f: (R, T) -> R, acc: R, values: seq<T>): R {
    if values == [] then acc else f(FoldLeft(f, acc, values[..|values| - 1]), values[|values| - 1])
  }

  lemma {:induction false} FoldLeftFirst<T, R>(f: (R, T) -> R, acc: R, values: seq<T>)
    requires values != []
    ensures FoldLeft(f, acc, values) == FoldLeft(f, f(acc, values[0]), values[1..])
  {
    var last := |values| - 1;
    if last == 0 {
      assert FoldLeft(f, acc, values[..0]) == acc;
    } else {
      FoldLeftFirst(f, acc, values[..last]);
      assert values[..last][1..] == values[1..][..last - 1];
    }
  }

  /** Every input has one maximal run, and foldL folds its values and leaves its last input. */
  lemma {:induction false} FoldLIsLeftFold<T(!new), R>(p: Parser<T>, acc: R, f: (R, T) -> R, s: string)
    returns (inputs: seq<string>, values: seq<T>)
    requires Consumes(p)
    ensures MaximalRun(p, inputs, values) && inputs[0] == s
    ensures FoldL(p, acc, f, s) == Parsed(FoldLeft(f, acc, values), inputs[|values|])
    ensures IsSuffix(inputs[|values|], s)
    decreases |s|
  {
    match p(s)
    case None =>
      inputs, values := [s], [];
      assert s[0..] == s;
    case Some(r) =>
      ProperSuffixShorter(r.rest, s);
      var moreInputs, moreValues := FoldLIsLeftFold(p, f(acc, r.value), f, r.rest);
      inputs, values := [s] + moreInputs, [r.value] + moreValues;
      FoldLeftFirst(f, acc, values);
      SuffixTransitive(inputs[|values|], r.rest, s);
  }

  lemma {:induction false} MaximalRunUnique<T>(p: Parser<T>, a: seq<string>, va: seq<T>, b: seq<string>, vb: seq<T>)
    requires MaximalRun(p, a, va) && MaximalRun(p, b, vb) && a[0] == b[0]
    ensures a == b && va == vb
    decreases |a|
  {
    if va != [] { assert p(a[0]) == Some(Parsed(va[0], a[1])); }
    if vb != [] { assert p(b[0]) == Some(Parsed(vb[0], b[1])); }
    if va != [] {
      MaximalRunUnique(p, a[1..], va[1..], b[1..], vb[1..]);
      assert a == [a[0]] + a[1..] && b == [b[0]] + b[1..];
      assert va == [va[0]] + va[1..] && vb == [vb[0]] + vb[1..];
    }
  }

  // ----- When the loop of foldL ends -----

  /** foldL returns from s: the parser succeeds on what is left only finitely often. */
  ghost predicate Ends<T(!new)>(p: Parser<T>, s: string) {
    exists inputs, values :: MaximalRun(p, inputs, values) && inputs[0] == s
  }

  /** What the loop of foldL has returned after at most n rounds. */
  ghost function Rounds<T, R>(p: Parser<T>, acc: R, f: (R, T) -> R, s: string, n: nat): Option<Parsed<R>>
    decreases n
  {
    if n == 0 then None
    else match p(s)
         case None => Some(Parsed(acc, s))
         case Some(r) => Rounds(p, f(acc, r.value), f, r.rest, n - 1)
  }

  lemma {:induction false} RunOfRounds<T, R>(p: Parser<T>, acc: R, f: (R, T) -> R, s: string, n: nat)
    returns (inputs: seq<string>, values: seq<T>)
    requires Rounds(p, acc, f, s, n).Some?
    ensures MaximalRun(p, inputs, values) && inputs[0] == s
    decreases n
  {
    match p(s)
    case None => inputs, values := [s], [];
    case Some(r) =>
      var moreInputs, moreValues := RunOfRounds(p, f(acc, r.value), f, r.rest, n - 1);
      inputs, values := [s] + moreInputs, [r.value] + moreValues;
  }

  lemma {:induction false} RoundsOfRun<T, R>(p: Parser<T>, acc: R, f: (R, T) -> R, inputs: seq<string>, values: seq<T>)
    requires MaximalRun(p, inputs, values)
    ensures Rounds(p, acc, f, inputs[0], |inputs|) == Some(Parsed(FoldLeft(f, acc, values), inputs[|values|]))
    decreases |inputs|
  {
    if values != [] {
      assert p(inputs[0]) == Some(Parsed(values[0], inputs[1]));
      RoundsOfRun(p, f(acc, values[0]), f, inputs[1..], values[1..]);
      FoldLeftFirst(f, acc, values);
    }
  }

  /** The loop returns after finitely many rounds if and only if a maximal run starts at the input. */
  lemma EndsExactly<T(!new), R>(p: Parser<T>, acc: R, f: (R, T) -> R, s: string)
    ensures Ends(p, s) <==> exists n: nat :: Rounds(p, acc, f, s, n).Some?
  {
    if Ends(p, s) {
      var inputs, values :| MaximalRun(p, inputs, values) && inputs[0] == s;
      RoundsOfRun(p, acc, f, inputs, values);
    }
    if n: nat :| Rounds(p, acc, f, s, n).Some? {
      var inputs, values := RunOfRounds(p, acc, f, s, n);
    }
  }

  /** The loop of foldL, wherever it ends, folds the values of the maximal run. */
  method FoldLoop<T(!new), R>(p: Parser<T>, init: R, f: (R, T) -> R, input: string) returns (r: Parsed<R>)
    requires Ends(p, input)
    ensures forall inputs, values | MaximalRun(p, inputs, values) && inputs[0] == input ::
              r == Parsed(FoldLeft(f, init, values), inputs[|values|])
    ensures Consumes(p) ==> r == FoldL(p, init, f, input)
  {
    ghost var inputs, values :| MaximalRun(p, inputs, values) && inputs[0] == input;
    ghost var i := 0;
    var acc, s := init, input;
    while true
      invariant 0 <= i <= |values| && s == inputs[i] && acc == FoldLeft(f, init, values[..i])
      decreases |values| - i
    {
      assert i < |values| ==> p(s) == Some(Parsed(values[i], inputs[i + 1]));
      var next := p(s);
      if next.None? {
        break;
      }
      assert values[..i + 1][..i] == values[..i];
      acc, s := f(acc, next.value.value), next.value.rest;
      i := i + 1;
    }
    r := Parsed(acc, s);
    assert i == |values| && values[..i] == values;
    forall a, va | MaximalRun(p, a, va) && a[0] == input ensures a == inputs && va == values {
      MaximalRunUnique(p, a, va, inputs, values);
    }
    if Consumes(p) {
      ghost var b, vb := FoldLIsLeftFold(p, init, f, input);
    }
  }

  // ----- What the combinators keep -----

  lemma CombineKeeps<A(!new), B(!new), C(!new)>(p: Parser<A>, q: Parser<B>, f: (A, B) -> C)
    requires KeepsSuffix(p) && KeepsSuffix(q)
    ensures KeepsSuffix(Combine(p, q, f))
    ensures Consumes(p) || Consumes(q) ==> Consumes(Combine(p, q, f))
  {
    forall s | Combine(p, q, f)(s).Some?
      ensures IsSuffix(Combine(p, q, f)(s).value.rest, s)
      ensures Consumes(p) || Consumes(q) ==> Combine(p, q, f)(s).value.rest != s
    {
      var middle := p(s).value.rest;
      SuffixTransitive(q(middle).value.rest, middle, s);
    }
  }

  lemma AtLeastOneConsumes<T(!new), R(!new)>(p: Parser<T>, init: R, f: (R, T) -> R)
    requires Consumes(p)
    ensures Consumes(AtLeastOne(p, init, f))
  {
    forall s | p(s).Some?
      ensures var rest := AtLeastOne(p, init, f)(s).value.rest; IsSuffix(rest, s) && rest != s
    {
      var r := p(s).value;
      var inputs, values := FoldLIsLeftFold(p, f(init, r.value), f, r.rest);
      ProperSuffixShorter(r.rest, s);
      SuffixTransitive(inputs[|values|], r.rest, s);
    }
  }

  /** foldL over an optional parser returns from no input, since the parser never fails. */
  lemma DefaultNeverEnds<T(!new)>(p: Parser<T>, value: T, s: string)
    ensures !Ends(Default(p, value), s)
  {
    assert forall t :: Default(p, value)(t).Some?;
  }

  /** foldL over a parser that consumes strictly returns from every input. */
  lemma ConsumesEnds<T(!new)>(p: Parser<T>, s: string)
    requires Consumes(p)
    ensures Ends(p, s)
  {
    var inputs, values := FoldLIsLeftFold(p, 0, (k, x) => k, s);
  }

  /** Where the parser succeeds without consuming anything it does so again and again. */
  lemma {:induction false} StuckNeverFails<T(!new)>(p: Parser<T>, inputs: seq<string>, values: seq<T>)
    requires MaximalRun(p, inputs, values)
    ensures !(p(inputs[0]).Some? && p(inputs[0]).value.rest == inputs[0])
    decreases |inputs|
  {
    if values != [] {
      assert p(inputs[0]) == Some(Parsed(values[0], inputs[1]));
      StuckNeverFails(p, inputs[1..], values[1..]);
    }
  }

  /** foldL over a parser that keeps suffixes returns from every input if and only if the parser consumes strictly. */
  lemma EndsEverywhereExactly<T(!new)>(p: Parser<T>)
    requires KeepsSuffix(p)
    ensures (forall s :: Ends(p, s)) <==> Consumes(p)
  {
    if forall s :: Ends(p, s) {
      forall s | p(s).Some? ensures p(s).value.rest != s {
        assert Ends(p, s);
        var inputs, values :| MaximalRun(p, inputs, values) && inputs[0] == s;
        StuckNeverFails(p, inputs, values);
      }
    }
    if Consumes(p) {
      forall s ensures Ends(p, s) { ConsumesEnds(p, s); }
    }
  }

  /** An optional parser keeps suffixes, but never consumes strictly: on the empty input it succeeds. */
  lemma DefaultKeeps<T(!new)>(p: Parser<T>, value: T)
    requires KeepsSuffix(p)
    ensures KeepsSuffix(Default(p, value)) && !Consumes(Default(p, value))
  {
    forall s ensures IsSuffix(s, s) { assert s[0..] == s; }
    assert Default(p, value)([]).Some?;
  }

  lemma CharConsumes(c: char)
    ensures Consumes(CharParser(c)) && KeepsSuffix(CharParser(c))
  {
  }

  function Increment(k: nat, x: char): nat {
    k + 1
  }

  lemma {:induction false} FoldRunOfChar(c: char, n: nat, rest: string, start: nat)
    requires rest == [] || rest[0] != c
    ensures (CharConsumes(c);
             FoldL(CharParser(c), start, Increment, seq(n, i => c) + rest) == Parsed(start + n, rest))
    decreases n
  {
    CharConsumes(c);
    var s := seq(n, i => c) + rest;
    if n > 0 {
      assert s[1..] == seq(n - 1, i => c) + rest;
      FoldRunOfChar(c, n - 1, rest, start + 1);
    } else {
      assert s == rest;
    }
  }

  /** atLeast over one character counts and takes exactly its maximal run, which must not be empty. */
  lemma AtLeastOneOfChar(c: char, n: nat, rest: string)
    requires rest == [] || rest[0] != c
    ensures (CharConsumes(c);
             AtLeastOne(CharParser(c), 0, Increment)(seq(n, i => c) + rest)
             == if n == 0 then None else Some(Parsed(n, rest)))
  {
    CharConsumes(c);
    var s := seq(n, i => c) + rest;
    if n > 0 {
      assert s[1..] == seq(n - 1, i => c) + rest;
      FoldRunOfChar(c, n - 1, rest, 1);
    } else {
      assert s == rest;
    }
  }

  // ----- What the combinators accept -----

  lemma CharAccepts(c: char, s: string)
    ensures CharParser(c)(s) == if s != [] && s[0] == c then Some(Parsed(c, s[1..])) else None
  {
  }

  /** `combine` runs the second parser on what the first one leaves, and fails if either does. */
  lemma CombineAccepts<A(!new), B(!new), C>(p: Parser<A>, q: Parser<B>, f: (A, B) -> C, s: string, r: Parsed<C>)
    ensures Combine(p, q, f)(s) == Some(r) <==>
              exists a, b, middle ::
                p(s) == Some(Parsed(a, middle)) && q(middle) == Some(Parsed(b, r.rest)) && r.value == f(a, b)
  {
    if Combine(p, q, f)(s) == Some(r) {
      var first := p(s).value;
      var second := q(first.rest).value;
      assert p(s) == Some(Parsed(first.value, first.rest)) && q(first.rest) == Some(Parsed(second.value, r.rest));
    }
  }

  function Pair(c: char, d: char): (char, char) {
    (c, d)
  }

  /** Two characters in a row. */
  lemma CombineOfChars(c: char, d: char, s: string)
    ensures Combine(CharParser(c), CharParser(d), Pair)(s) ==
              if |s| >= 2 && s[0] == c && s[1] == d then Some(Parsed((c, d), s[2..])) else None
  {
    CharAccepts(c, s);
    if s != [] && s[0] == c {
      assert CharParser(c)(s) == Some(Parsed(c, s[1..]));
      CharAccepts(d, s[1..]);
      if |s| >= 2 { assert s[1..][1..] == s[2..] && s[1..][0] == s[1]; }
    }
  }

  /** `option` agrees with its parser wherever that succeeds, and else gives its default and leaves everything. */
  lemma DefaultAccepts<T>(p: Parser<T>, value: T, s: string)
    ensures p(s).Some? ==> Default(p, value)(s) == p(s)
    ensures p(s).None? ==> Default(p, value)(s) == Some(Parsed(value, s))
  {
  }

  lemma OptionOfChar(c: char, d: char, s: string)
    ensures Default(CharParser(c), d)(s) == Some(if s != [] && s[0] == c then Parsed(c, s[1..]) else Parsed(d, s))
  {
  }

  /** `atLeast` gives the left fold over a maximal run of at least one success. */
  lemma AtLeastOneAccepts<T(!new), R>(p: Parser<T>, init: R, f: (R, T) -> R, s: string)
    returns (inputs: seq<string>, values: seq<T>)
    requires Consumes(p)
    ensures MaximalRun(p, inputs, values) && inputs[0] == s
    ensures AtLeastOne(p, init, f)(s) ==
              if values == [] then None else Some(Parsed(FoldLeft(f, init, values), inputs[|values|]))
  {
    inputs, values := FoldLIsLeftFold(p, init, f, s);
    if values == [] {
      assert p(inputs[0]).None?;
    } else {
      assert p(inputs[0]) == Some(Parsed(values[0], inputs[1]));
      ProperSuffixShorter(inputs[1], s);
    }
  }
}
