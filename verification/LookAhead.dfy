/** The generator with one element of look-ahead of coroutine/generator.cpp, and its Fibonacci sequence. */
module LookAhead {
  import opened Options
  import opened Words

  /** A coroutine body that yields `values` one after another and then returns, or throws. */
  datatype Body<T> = Body(values: seq<T>, throws: bool)

  /** What a call gives. Rethrown: the body's exception. Invalid: a finished coroutine was resumed. */
  datatype Reply<+T> = Truth(more: bool) | Item(value: T) | Stale | Rethrown | Invalid

  /** resumed: how many values the body has yielded; done: it ran to its end; full: the element read ahead is unread. */
  datatype State = State(resumed: nat, done: bool, full: bool)

  const START := State(0, false, false)

  datatype Call = Check | Get

  /** fill(): resume the coroutine unless an element was read ahead. */
  function Fill<T>(body: Body<T>, s: State): (State, Option<Reply<T>>) {
    if s.full then (s, None)
    else if s.done then (s, Some(Invalid))
    else if s.resumed < |body.values| then (s.(resumed := s.resumed + 1, full := true), None)
    else if body.throws then (s.(done := true), Some(Rethrown))
    else (s.(done := true, full := true), None)
  }

  /** operator bool and operator(). */
  function Answer<T>(body: Body<T>, s: State, call: Call): (State, Reply<T>) {
    var (t, failure) := Fill(body, s);
    if failure.Some? then (t, failure.value)
    else match call
         case Check => (t, Truth(!t.done))
         case Get =>
           (t.(full := false),
            if !t.done && 0 < t.resumed <= |body.values| then Item(body.values[t.resumed - 1]) else Stale)
  }

  function Replies<T>(body: Body<T>, s: State, calls: seq<Call>): seq<Reply<T>>
    decreases calls
  {
    if calls == [] then []
    else var (t, r) := Answer(body, s, calls[0]); [r] + Replies(body, t, calls[1..])
  }

  /**
   What a client may do with a list of which `left` values are still to come: take only what is there, and
   stop at the exception if the body ends with one.
   */
  predicate Permitted(left: nat, throws: bool, calls: seq<Call>)
    decreases calls
  {
    calls == [] ||
    if left == 0 && throws then |calls| == 1
    else if calls[0].Get? then left > 0 && Permitted(left - 1, throws, calls[1..])
    else Permitted(left, throws, calls[1..])
  }

  /** What it sees: Check tells whether a value is left, Get takes the next one. */
  function Expected<T>(left: seq<T>, throws: bool, calls: seq<Call>): seq<Reply<T>>
    requires Permitted(|left|, throws, calls)
    decreases calls
  {
    if calls == [] then []
    else if left == [] && throws then [Rethrown]
    else match calls[0]
         case Check => [Truth(left != [])] + Expected(left, throws, calls[1..])
         case Get => [Item(left[0])] + Expected(left[1..], throws, calls[1..])
  }

  /** n values were delivered and at most one more was read ahead, or the end was reached after the last. */
  ghost predicate Delivered<T>(body: Body<T>, s: State, n: nat) {
    && n <= |body.values|
    && (s.done ==> s.full && !body.throws && n == |body.values|)
    && s.resumed == n + (if s.full && !s.done then 1 else 0) <= |body.values|
  }

  lemma {:induction false} RepliesAsExpected<T>(body: Body<T>, s: State, n: nat, calls: seq<Call>)
    requires Delivered(body, s, n) && Permitted(|body.values| - n, body.throws, calls)
    ensures Replies(body, s, calls) == Expected(body.values[n..], body.throws, calls)
    decreases calls
  {
    if calls != [] {
      var (t, r) := Answer(body, s, calls[0]);
      if n == |body.values| && body.throws {
        assert Replies(body, t, calls[1..]) == [];
      } else {
        RepliesAsExpected(body, t, if calls[0].Get? then n + 1 else n, calls[1..]);
      }
    }
  }

  /** Any mixture of checks and permitted takes delivers exactly the yielded values, none skipped or repeated. */
  lemma DeliversTheYields<T>(body: Body<T>, calls: seq<Call>)
    requires Permitted(|body.values|, body.throws, calls)
    ensures Replies(body, START, calls) == Expected(body.values, body.throws, calls)
  {
    RepliesAsExpected(body, START, 0, calls);
    assert body.values[0..] == body.values;
  }

  /** `for (; gen; ) gen();` over n values. */
  function LoopCalls(n: nat): seq<Call> {
    if n == 0 then [Check] else [Check, Get] + LoopCalls(n - 1)
  }

  function Items<T>(replies: seq<Reply<T>>): seq<T> {
    if replies == [] then []
    else (if replies[0].Item? then [replies[0].value] else []) + Items(replies[1..])
  }

  /** The loop takes all the values of a body that returns, and nothing else. */
  lemma {:induction false} LoopTakesAll<T>(values: seq<T>)
    ensures Items(Replies(Body(values, false), START, LoopCalls(|values|))) == values
  {
    LoopPermitted(|values|);
    DeliversTheYields(Body(values, false), LoopCalls(|values|));
    LoopExpected(values);
  }

  lemma {:induction false} LoopPermitted(n: nat)
    ensures Permitted(n, false, LoopCalls(n))
  {
    if n > 0 {
      LoopPermitted(n - 1);
      var calls := LoopCalls(n);
      assert calls[0] == Check && calls[1..][0] == Get && calls[1..][1..] == LoopCalls(n - 1);
    }
  }

  lemma {:induction false} LoopExpected<T>(values: seq<T>)
    ensures Permitted(|values|, false, LoopCalls(|values|))
    ensures Items(Expected(values, false, LoopCalls(|values|))) == values
  {
    LoopPermitted(|values|);
    if values != [] {
      LoopExpected(values[1..]);
      var calls := LoopCalls(|values|);
      assert calls[0] == Check && calls[1..][0] == Get && calls[1..][1..] == LoopCalls(|values| - 1);
      var rest := Expected(values[1..], false, LoopCalls(|values| - 1));
      assert Expected(values, false, calls[1..]) == [Item(values[0])] + rest;
      assert Expected(values, false, calls) == [Truth(true)] + ([Item(values[0])] + rest);
      assert ([Item(values[0])] + rest)[1..] == rest;
      assert ([Truth(true)] + ([Item(values[0])] + rest))[1..] == [Item(values[0])] + rest;
      assert [values[0]] + values[1..] == values;
    }
  }

  class Generator<T> {
    const body: Body<T>
    var state: State

    constructor (body: Body<T>)
      ensures this.body == body && state == START
    {
      this.body := body;
      state := START;
    }

    /** fill(): runs the body up to its next yield unless a value was read ahead. */
    method FillAhead() returns (failure: Option<Reply<T>>)
      modifies this
      ensures (state, failure) == Fill(body, old(state))
    {
      failure := None;
      if !state.full {
        if state.done {
          return Some(Invalid);
        }
        if state.resumed < |body.values| {
          state := state.(resumed := state.resumed + 1);
        } else {
          state := state.(done := true);
          if body.throws {
            return Some(Rethrown);
          }
        }
        state := state.(full := true);
      }
    }

    method HasMore() returns (r: Reply<T>)
      modifies this
      ensures (state, r) == Answer(body, old(state), Check)
    {
      var failure := FillAhead();
      r := if failure.Some? then failure.value else Truth(!state.done);
    }

    method Next() returns (r: Reply<T>)
      modifies this
      ensures (state, r) == Answer(body, old(state), Get)
    {
      var failure := FillAhead();
      if failure.Some? {
        return failure.value;
      }
      state := state.(full := false);
      r := if !state.done && 0 < state.resumed <= |body.values| then Item(body.values[state.resumed - 1]) else Stale;
    }
  }

  // ----- fibonacci_sequence -----

  function Fib(n: nat): nat {
    if n < 2 then n else Fib(n - 1) + Fib(n - 2)
  }

  lemma {:induction false} FibGrows(m: nat, n: nat)
    requires m <= n
    ensures Fib(m) <= Fib(n)
    decreases n
  {
    if m < n {
      FibGrows(m, n - 1);
    }
  }

  lemma FibTen(n: nat)
    ensures Fib(n + 10) == 34 * Fib(n) + 55 * Fib(n + 1)
    ensures Fib(n + 11) == 55 * Fib(n) + 89 * Fib(n + 1)
  {
    assert Fib(n + 4) == 2 * Fib(n) + 3 * Fib(n + 1);
    assert Fib(n + 5) == 3 * Fib(n) + 5 * Fib(n + 1);
    assert Fib(n + 8) == 2 * Fib(n + 4) + 3 * Fib(n + 5);
    assert Fib(n + 9) == 3 * Fib(n + 4) + 5 * Fib(n + 5);
  }

  lemma FibFifty()
    ensures Fib(50) == 12586269025 && Fib(51) == 20365011074
  {
    assert Fib(0) == 0 && Fib(1) == 1;
    FibTen(0);
    FibTen(10);
    FibTen(20);
    FibTen(30);
    FibTen(40);
  }

  lemma FibNinety()
    ensures Fib(90) == 2880067194370816120 && Fib(91) == 4660046610375530309
  {
    FibFifty();
    hide Fib;
    FibTen(50);
    FibTen(60);
    FibTen(70);
    FibTen(80);
  }

  /** The 64-bit bound is exact: the 94 elements from index 0 to 93 fit, and the next one does not. */
  lemma FibFits(n: nat)
    ensures Fib(n) < W64 <==> n < 94
  {
    FibNinety();
    Follows(90);
    Follows(91);
    Follows(92);
    if n < 94 { FibGrows(n, 93); } else { FibGrows(94, n); }
  }

  lemma Follows(n: nat)
    ensures Fib(n + 2) == Fib(n + 1) + Fib(n)
  {
  }

  function Fibs(n: nat): seq<nat> {
    seq(n, i requires 0 <= i => Fib(i))
  }

  /** The coroutine's body: additions are modulo 2^64. */
  method FibonacciSequence(n: nat) returns (body: Body<nat>)
    ensures body == if n > 94 then Body([], true) else Body(Fibs(n), false)
  {
    if n > 94 {
      return Body([], true);
    }
    var values := [];
    if n > 0 {
      values := values + [0];
    }
    if n > 1 {
      values := values + [1];
      var a, b := 0, 1;
      for i := 2 to n
        invariant values == Fibs(i)
        invariant a == Fib(i - 2) && b == Fib(i - 1)
      {
        var s := (a + b) % W64;
        FibFits(i);
        values := values + [s];
        a, b := b, s;
      }
    }
    body := Body(values, false);
  }
}
