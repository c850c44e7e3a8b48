/**
 The completion protocol of a task's promise (coroutine/include/6sleep/task_promise.h): one result,
 callbacks registered before and after it, and threads that block for it.
 */
module Completion {
  import opened Options

  /** A callback ran with the given result. */
  datatype Call<C, R> = Call(callback: C, result: R)

  /**
   Where a thread stands that called get_result. Faulted: woken without a result, it reads the empty result.
   */
  datatype Waiter<R> = Asking | Sleeping | Woken | Returned(value: R) | Faulted

  /** completion_lock_: free between steps, or held by return_value, which has run the first `next` callbacks. */
  datatype Lock<R> = Free | Held(value: R, next: nat)

  /**
   result, callbacks, lock: the promise's fields.
   late: callbacks registered after completion whose thread has copied the result and released the lock.
   calls: the log of callback runs. early, registered: all registrations in order, those before completion and all.
   */
  datatype State<C, R> = State(
    result: Option<R>, callbacks: seq<C>, lock: Lock<R>,
    late: seq<Call<C, R>>, waiters: seq<Waiter<R>>,
    calls: seq<Call<C, R>>, early: seq<C>, registered: seq<C>)

  function Init<C, R>(): State<C, R> {
    State(None, [], Free, [], [], [], [], [])
  }

  datatype Step<C, R> =
    | Register(callback: C)       // on_completed takes the lock
    | RunLate(i: nat)             // a late callback is run outside the lock
    | Store(result: R)            // return_value takes the lock, stores the result and notifies all
    | RunNext                     // notify_callbacks runs the next callback
    | Release                     // the callbacks are cleared and the lock is released
    | Ask                         // some thread calls get_result
    | Look(w: nat)                // it holds the lock and looks for a result
    | Spurious(w: nat)            // it wakes for no reason
    | Collect(w: nat)             // it was woken and holds the lock again

  predicate Enabled<C, R>(s: State<C, R>, step: Step<C, R>) {
    match step
    case Register(_) => s.lock.Free?
    case RunLate(i) => i < |s.late|
    case Store(_) => s.lock.Free? && s.result.None?
    case RunNext => s.lock.Held? && s.lock.next < |s.callbacks|
    case Release => s.lock.Held? && s.lock.next == |s.callbacks|
    case Ask => true
    case Look(w) => s.lock.Free? && w < |s.waiters| && s.waiters[w].Asking?
    case Spurious(w) => w < |s.waiters| && s.waiters[w].Sleeping?
    case Collect(w) => s.lock.Free? && w < |s.waiters| && s.waiters[w].Woken?
  }

  function WakeAll<R>(waiters: seq<Waiter<R>>): seq<Waiter<R>> {
    seq(|waiters|, i requires 0 <= i < |waiters| => if waiters[i].Sleeping? then Woken else waiters[i])
  }

  function Apply<C, R>(s: State<C, R>, step: Step<C, R>): State<C, R>
    requires Enabled(s, step)
  {
    match step
    case Register(c) =>
      if s.result.Some? then s.(late := s.late + [Call(c, s.result.value)], registered := s.registered + [c])
      else s.(callbacks := s.callbacks + [c], early := s.early + [c], registered := s.registered + [c])
    case RunLate(i) => s.(calls := s.calls + [s.late[i]], late := s.late[..i] + s.late[i + 1..])
    case Store(r) => s.(result := Some(r), lock := Held(r, 0), waiters := WakeAll(s.waiters))
    case RunNext =>
      s.(calls := s.calls + [Call(s.callbacks[s.lock.next], s.lock.value)], lock := Held(s.lock.value, s.lock.next + 1))
    case Release => s.(callbacks := [], lock := Free)
    case Ask => s.(waiters := s.waiters + [Asking])
    case Look(w) => s.(waiters := s.waiters[w := if s.result.Some? then Returned(s.result.value) else Sleeping])
    case Spurious(w) => s.(waiters := s.waiters[w := Woken])
    case Collect(w) => s.(waiters := s.waiters[w := if s.result.Some? then Returned(s.result.value) else Faulted])
  }

  predicate CanRun<C, R>(s: State<C, R>, steps: seq<Step<C, R>>)
    decreases steps
  {
    steps == [] || (Enabled(s, steps[0]) && CanRun(Apply(s, steps[0]), steps[1..]))
  }

  function Run<C, R>(s: State<C, R>, steps: seq<Step<C, R>>): State<C, R>
    requires CanRun(s, steps)
    decreases steps
  {
    if steps == [] then s else Run(Apply(s, steps[0]), steps[1..])
  }

  /** The calls of the callbacks, all with one result. */
  function Calls<C, R>(callbacks: seq<C>, result: R): seq<Call<C, R>> {
    seq(|callbacks|, i requires 0 <= i < |callbacks| => Call(callbacks[i], result))
  }

  function Callbacks<C, R>(calls: seq<Call<C, R>>): seq<C> {
    seq(|calls|, i requires 0 <= i < |calls| => calls[i].callback)
  }

  /** How many of the early callbacks have run. */
  function EarlyRun<C, R>(s: State<C, R>): nat {
    match s.lock
    case Held(_, next) => next
    case Free => if s.result.None? then 0 else |s.early|
  }

  ghost predicate FieldsOk<C, R>(s: State<C, R>) {
    && (s.result.None? ==> s.lock.Free? && s.callbacks == s.early && s.calls == [] && s.late == [])
    && (s.lock.Held? ==> s.result == Some(s.lock.value) && s.callbacks == s.early && s.lock.next <= |s.early|
                         && |s.calls| == s.lock.next && s.late == [])
    && (s.result.Some? && s.lock.Free? ==> s.callbacks == [])
  }

  /** Registered callbacks have run, are late and about to run, or are still waiting. */
  ghost predicate Balance<C>(registered: multiset<C>, ran: multiset<C>, late: multiset<C>, waiting: multiset<C>) {
    registered == ran + late + waiting
  }

  lemma WaitingRuns<C>(registered: multiset<C>, ran: multiset<C>, late: multiset<C>, waiting: multiset<C>, c: C)
    requires Balance(registered, ran, late, multiset{c} + waiting)
    ensures Balance(registered, ran + multiset{c}, late, waiting)
  {
    assert ran + late + (multiset{c} + waiting) == ran + multiset{c} + late + waiting;
  }

  lemma OneMoreRegistered<C>(registered: multiset<C>, ran: multiset<C>, late: multiset<C>, waiting: multiset<C>, c: C)
    requires Balance(registered, ran, late, waiting)
    ensures Balance(registered + multiset{c}, ran, late + multiset{c}, waiting)
    ensures Balance(registered + multiset{c}, ran, late, waiting + multiset{c})
  {
    assert ran + (late + multiset{c}) + waiting == ran + late + waiting + multiset{c};
    assert ran + late + (waiting + multiset{c}) == ran + late + waiting + multiset{c};
  }

  lemma LateRuns<C>(registered: multiset<C>, ran: multiset<C>, late: multiset<C>, waiting: multiset<C>, c: C)
    requires Balance(registered, ran, late + multiset{c}, waiting)
    ensures Balance(registered, ran + multiset{c}, late, waiting)
  {
    assert ran + (late + multiset{c}) + waiting == ran + multiset{c} + late + waiting;
  }

  /** The early callbacks ran in order, and every call has the stored result. */
  ghost predicate CallsOrdered<C, R>(s: State<C, R>) {
    && EarlyRun(s) <= |s.calls| && EarlyRun(s) <= |s.early|
    && (forall i | 0 <= i < EarlyRun(s) :: s.calls[i].callback == s.early[i])
    && (forall i | 0 <= i < |s.calls| :: s.result == Some(s.calls[i].result))
    && (forall i | 0 <= i < |s.late| :: s.result == Some(s.late[i].result))
  }

  ghost predicate CallsOk<C, R>(s: State<C, R>) {
    && CallsOrdered(s)
    && Balance(multiset(s.registered), multiset(Callbacks(s.calls)), multiset(Callbacks(s.late)),
               multiset(s.early[EarlyRun(s)..]))
  }

  ghost predicate WaiterOk<C, R>(s: State<C, R>, w: Waiter<R>) {
    match w
    case Asking => true
    case Sleeping => s.result.None?
    case Woken => true
    case Returned(v) => s.result == Some(v) && s.lock.Free?
    case Faulted => true
  }

  ghost predicate Inv<C, R>(s: State<C, R>) {
    && FieldsOk(s) && CallsOk(s)
    && (forall w | 0 <= w < |s.waiters| :: WaiterOk(s, s.waiters[w]))
  }

  lemma InitInv<C, R>()
    ensures Inv(Init<C, R>())
  {
    assert Callbacks<C, R>([]) == [];
  }

  lemma RegisterOrdered<C, R>(s: State<C, R>, c: C)
    requires FieldsOk(s) && CallsOrdered(s) && Enabled(s, Register(c))
    ensures CallsOrdered(Apply(s, Register(c)))
  {
  }

  lemma RegisterCalls<C, R>(s: State<C, R>, c: C)
    requires Inv(s) && Enabled(s, Register(c))
    ensures CallsOk(Apply(s, Register(c)))
  {
    RegisterOrdered(s, c);
    MoreCallbacks(s.registered, c);
    var k := EarlyRun(s);
    if s.result.Some? {
      MoreCalls(s.late, Call(c, s.result.value));
    } else {
      assert s.early[0..] == s.early && (s.early + [c])[0..] == s.early + [c];
      MoreCallbacks(s.early, c);
    }
    hide Balance, Callbacks, CallsOrdered;
    OneMoreRegistered(multiset(s.registered), multiset(Callbacks(s.calls)), multiset(Callbacks(s.late)),
                      multiset(s.early[k..]), c);
  }

  lemma MoreCallbacks<C>(all: seq<C>, c: C)
    ensures multiset(all + [c]) == multiset(all) + multiset{c}
  {
  }

  lemma WithoutOne<C>(all: seq<C>, i: nat)
    requires i < |all|
    ensures multiset(all) == multiset(all[..i] + all[i + 1..]) + multiset{all[i]}
  {
    assert all == all[..i] + [all[i]] + all[i + 1..];
  }

  lemma RunLateCalls<C, R>(s: State<C, R>, i: nat)
    requires Inv(s) && Enabled(s, RunLate(i))
    ensures CallsOk(Apply(s, RunLate(i)))
  {
    var t := Apply(s, RunLate(i));
    var all := Callbacks(s.late);
    WithoutOne(all, i);
    assert Callbacks(t.late) == all[..i] + all[i + 1..];
    MoreCalls(s.calls, s.late[i]);
    hide Balance;
    LateRuns(multiset(s.registered), multiset(Callbacks(s.calls)), multiset(Callbacks(t.late)),
             multiset(s.early[EarlyRun(s)..]), all[i]);
  }

  lemma NextOrdered<C, R>(s: State<C, R>)
    requires FieldsOk(s) && CallsOrdered(s) && Enabled(s, RunNext)
    ensures CallsOrdered(Apply(s, RunNext))
  {
  }

  lemma RunNextCalls<C, R>(s: State<C, R>)
    requires Inv(s) && Enabled(s, RunNext)
    ensures CallsOk(Apply(s, RunNext))
  {
    var next := s.lock.next;
    FirstOfRest(s.early, next);
    MoreCalls(s.calls, Call(s.early[next], s.lock.value));
    NextOrdered(s);
    hide Balance, Callbacks, CallsOrdered;
    WaitingRuns(multiset(s.registered), multiset(Callbacks(s.calls)), multiset(Callbacks(s.late)),
                multiset(s.early[next + 1..]), s.early[next]);
  }

  lemma FirstOfRest<C>(all: seq<C>, i: nat)
    requires i < |all|
    ensures multiset(all[i..]) == multiset{all[i]} + multiset(all[i + 1..])
  {
    assert all[i..] == [all[i]] + all[i + 1..];
  }

  lemma MoreCalls<C, R>(calls: seq<Call<C, R>>, x: Call<C, R>)
    ensures multiset(Callbacks(calls + [x])) == multiset(Callbacks(calls)) + multiset{x.callback}
  {
    assert Callbacks(calls + [x]) == Callbacks(calls) + [x.callback];
  }

  lemma StepCalls<C, R>(s: State<C, R>, step: Step<C, R>)
    requires Inv(s) && Enabled(s, step)
    ensures CallsOk(Apply(s, step))
  {
    match step
    case Register(c) => RegisterCalls(s, c);
    case RunLate(i) => RunLateCalls(s, i);
    case RunNext => RunNextCalls(s);
    case _ =>
  }

  lemma StepWaiters<C, R>(s: State<C, R>, step: Step<C, R>, w: nat)
    requires Inv(s) && Enabled(s, step) && w < |Apply(s, step).waiters|
    ensures WaiterOk(Apply(s, step), Apply(s, step).waiters[w])
  {
    assert w < |s.waiters| ==> WaiterOk(s, s.waiters[w]);
  }

  lemma StepInv<C, R>(s: State<C, R>, step: Step<C, R>)
    requires Inv(s) && Enabled(s, step)
    ensures Inv(Apply(s, step))
  {
    StepCalls(s, step);
    forall w: nat | w < |Apply(s, step).waiters| ensures WaiterOk(Apply(s, step), Apply(s, step).waiters[w]) {
      StepWaiters(s, step, w);
    }
  }

  lemma {:induction false} RunInv<C, R>(s: State<C, R>, steps: seq<Step<C, R>>)
    requires Inv(s) && CanRun(s, steps)
    ensures Inv(Run(s, steps))
    decreases steps
  {
    if steps != [] {
      StepInv(s, steps[0]);
      RunInv(Apply(s, steps[0]), steps[1..]);
    }
  }

  ghost predicate Reached<C, R>(steps: seq<Step<C, R>>, s: State<C, R>) {
    CanRun(Init<C, R>(), steps) && s == Run(Init<C, R>(), steps)
  }

  /**
   Every callback runs with the one stored result; those registered before completion run first and in
   the order of registration; and as soon as nothing is pending each registration has run exactly once.
   */
  lemma EveryCallbackRunsOnce<C, R>(steps: seq<Step<C, R>>, s: State<C, R>)
    requires Reached(steps, s)
    ensures forall i | 0 <= i < |s.calls| :: s.result == Some(s.calls[i].result)
    ensures EarlyRun(s) <= |s.calls| && EarlyRun(s) <= |s.early|
    ensures Callbacks(s.calls[..EarlyRun(s)]) == s.early[..EarlyRun(s)]
    ensures multiset(Callbacks(s.calls)) <= multiset(s.registered)
    ensures s.result.Some? && s.lock.Free? && s.late == [] ==> multiset(Callbacks(s.calls)) == multiset(s.registered)
  {
    InitInv<C, R>();
    RunInv(Init<C, R>(), steps);
    assert s.early[|s.early|..] == [];
    assert Callbacks<C, R>([]) == [];
  }

  /**
   A thread in get_result never sleeps once the result is stored, and when it returns it has the stored
   result and every callback registered before completion has already run.
   */
  lemma WaitersMissNothing<C, R>(steps: seq<Step<C, R>>, s: State<C, R>, w: nat)
    requires Reached(steps, s) && w < |s.waiters|
    ensures s.waiters[w].Sleeping? ==> s.result.None?
    ensures s.waiters[w].Returned? ==> s.result == Some(s.waiters[w].value)
    ensures s.waiters[w].Returned? ==>
              |s.calls| >= |s.early| && s.calls[..|s.early|] == Calls(s.early, s.waiters[w].value)
  {
    InitInv<C, R>();
    RunInv(Init<C, R>(), steps);
    assert WaiterOk(s, s.waiters[w]);
  }

  /** Thread w holds the lock again before the result is stored, after a spurious wake (`woken` for one before `s`). */
  predicate CollectsTooEarly<C, R>(s: State<C, R>, steps: seq<Step<C, R>>, w: nat, woken: bool)
    requires CanRun(s, steps)
    decreases steps
  {
    steps != [] &&
    ((steps[0] == Collect(w) && woken && s.result.None?)
     || CollectsTooEarly(Apply(s, steps[0]), steps[1..], w, woken || steps[0] == Spurious(w)))
  }

  /** Before the result is stored only a spurious wake has woken a thread. */
  ghost predicate WokenOk<C, R>(s: State<C, R>, w: nat, woken: bool) {
    w < |s.waiters| && s.waiters[w].Woken? && s.result.None? ==> woken
  }

  lemma StepFault<C, R>(s: State<C, R>, step: Step<C, R>, w: nat, woken: bool)
    requires Enabled(s, step) && WokenOk(s, w, woken)
    ensures WokenOk(Apply(s, step), w, woken || step == Spurious(w))
    ensures (w < |Apply(s, step).waiters| && Apply(s, step).waiters[w].Faulted?) <==>
              (w < |s.waiters| && s.waiters[w].Faulted?) || (step == Collect(w) && woken && s.result.None?)
  {
  }

  lemma {:induction false} RunFault<C, R>(s: State<C, R>, steps: seq<Step<C, R>>, w: nat, woken: bool)
    requires CanRun(s, steps) && WokenOk(s, w, woken)
    ensures var t := Run(s, steps);
            (w < |t.waiters| && t.waiters[w].Faulted?) <==>
              (w < |s.waiters| && s.waiters[w].Faulted?) || CollectsTooEarly(s, steps, w, woken)
    ensures WokenOk(Run(s, steps), w, woken || Spurious(w) in steps)
    ensures Spurious(w) !in steps && !woken ==> !CollectsTooEarly(s, steps, w, woken)
    decreases steps
  {
    if steps != [] {
      StepFault(s, steps[0], w, woken);
      RunFault(Apply(s, steps[0]), steps[1..], w, woken || steps[0] == Spurious(w));
    }
  }

  /**
   A thread in get_result reads an empty result if and only if a spurious wake let it look before the result
   was stored. Without spurious wakes that never happens, and whoever was woken finds the result.
   */
  lemma FaultsExactly<C, R>(steps: seq<Step<C, R>>, s: State<C, R>, w: nat)
    requires Reached(steps, s) && w < |s.waiters|
    ensures s.waiters[w].Faulted? <==> CollectsTooEarly(Init<C, R>(), steps, w, false)
    ensures Spurious(w) !in steps ==> !s.waiters[w].Faulted? && (s.waiters[w].Woken? ==> s.result.Some?)
  {
    RunFault(Init<C, R>(), steps, w, false);
  }

  // ----- The imperative promise -----

  /** promise_type_ without its executor; running a callback is logged. */
  class Promise<C, R> {
    var result: Option<R>
    var callbacks: seq<C>
    var calls: seq<Call<C, R>>

    constructor ()
      ensures result == None && callbacks == [] && calls == []
    {
      result := None;
      callbacks := [];
      calls := [];
    }

    /** return_value and unhandled_exception: what Store, all RunNext and Release do together. */
    method Complete(value: R)
      modifies this
      ensures result == Some(value) && callbacks == []
      ensures calls == old(calls) + Calls(old(callbacks), value)
    {
      result := Some(value);
      NotifyCallbacks();
    }

    method NotifyCallbacks()
      requires result.Some?
      modifies `callbacks, `calls
      ensures callbacks == []
      ensures calls == old(calls) + Calls(old(callbacks), result.value)
    {
      var value := result.value;
      for i := 0 to |callbacks|
        invariant callbacks == old(callbacks)
        invariant calls == old(calls) + Calls(callbacks[..i], value)
      {
        assert Calls(callbacks[..i + 1], value) == Calls(callbacks[..i], value) + [Call(callbacks[i], value)];
        calls := calls + [Call(callbacks[i], value)];
      }
      assert callbacks[..|callbacks|] == callbacks;
      callbacks := [];
    }

    method OnCompleted(func: C)
      modifies this
      ensures result == old(result)
      ensures callbacks == if result.Some? then old(callbacks) else old(callbacks) + [func]
      ensures calls == if result.Some? then old(calls) + [Call(func, result.value)] else old(calls)
    {
      if result.Some? {
        var value := result.value;
        calls := calls + [Call(func, value)];
      } else {
        callbacks := callbacks + [func];
      }
    }
  }

  /** The steps of return_value, one after another, have the effect of Promise.Complete and wake who sleeps. */
  lemma CompletionSteps<C, R>(s: State<C, R>, value: R) returns (steps: seq<Step<C, R>>)
    requires s.lock.Free? && s.result.None?
    ensures CanRun(s, steps)
    ensures var t := Run(s, steps);
            && t.lock.Free? && t.callbacks == [] && t.result == Some(value)
            && t.calls == s.calls + Calls(s.callbacks, value) && t.waiters == WakeAll(s.waiters)
  {
    var stored := Apply(s, Step<C, R>.Store(value));
    var rest := RestOfCompletion(stored);
    steps := [Store(value)] + rest;
    assert steps[1..] == rest && s.callbacks[0..] == s.callbacks;
  }

  lemma {:induction false} RestOfCompletion<C, R>(s: State<C, R>) returns (steps: seq<Step<C, R>>)
    requires s.lock.Held? && s.lock.next <= |s.callbacks|
    ensures CanRun(s, steps)
    ensures var t := Run(s, steps);
            && t.lock.Free? && t.callbacks == [] && t.result == s.result && t.waiters == s.waiters
            && t.calls == s.calls + Calls(s.callbacks[s.lock.next..], s.lock.value)
    decreases |s.callbacks| - s.lock.next
  {
    if s.lock.next == |s.callbacks| {
      steps := [Release];
      assert CanRun(Apply(s, Release), steps[1..]);
    } else {
      var rest := RestOfCompletion(Apply(s, RunNext));
      steps := [RunNext] + rest;
      assert steps[1..] == rest;
      assert Calls(s.callbacks[s.lock.next..], s.lock.value)
          == [Call(s.callbacks[s.lock.next], s.lock.value)]
             + Calls(s.callbacks[s.lock.next + 1..], s.lock.value);
    }
  }

  // ----- The steps of a run -----

  function Registrations<C, R>(steps: seq<Step<C, R>>): seq<C> {
    if steps == [] then []
    else (if steps[0].Register? then [steps[0].callback] else []) + Registrations(steps[1..])
  }

  /** The registrations before the first result is stored. */
  function EarlyRegistrations<C, R>(steps: seq<Step<C, R>>): seq<C> {
    if steps == [] || steps[0].Store? then []
    else (if steps[0].Register? then [steps[0].callback] else []) + EarlyRegistrations(steps[1..])
  }

  lemma RegistrationsFirst<C, R>(steps: seq<Step<C, R>>)
    requires steps != []
    ensures var first := if steps[0].Register? then [steps[0].callback] else [];
            && Registrations(steps) == first + Registrations(steps[1..])
            && EarlyRegistrations(steps) == if steps[0].Store? then [] else first + EarlyRegistrations(steps[1..])
  {
  }

  lemma Glue<C>(a: seq<C>, b: seq<C>, c: seq<C>)
    ensures (a + b) + c == a + (b + c) && a + [] == a
  {
  }

  lemma {:induction false} RunRegisters<C, R>(s: State<C, R>, steps: seq<Step<C, R>>)
    requires CanRun(s, steps)
    ensures Run(s, steps).registered == s.registered + Registrations(steps)
    ensures Run(s, steps).early == s.early + if s.result.None? then EarlyRegistrations(steps) else []
    decreases steps
  {
    if steps == [] {
      Glue(s.registered, [], []);
      Glue(s.early, [], []);
    } else {
      var first := if steps[0].Register? then [steps[0].callback] else [];
      StepRegisters(s, steps[0]);
      RegistrationsFirst(steps);
      RunRegisters(Apply(s, steps[0]), steps[1..]);
      hide Apply, Enabled, Registrations, EarlyRegistrations;
      Glue(s.registered, first, Registrations(steps[1..]));
      Glue(s.early, first, EarlyRegistrations(steps[1..]));
      Glue(s.early, first, []);
    }
  }

  lemma StepRegisters<C, R>(s: State<C, R>, step: Step<C, R>)
    requires Enabled(s, step)
    ensures var t, added := Apply(s, step), if step.Register? then [step.callback] else [];
            && t.registered == s.registered + added && t.early == s.early + (if s.result.None? then added else [])
            && (t.result.None? <==> s.result.None? && !step.Store?)
  {
  }

  /** The callbacks that must run are all that a schedule registers, the early ones those before its first result. */
  lemma RegisteredAreRegistrations<C, R>(steps: seq<Step<C, R>>, s: State<C, R>)
    requires Reached(steps, s)
    ensures s.registered == Registrations(steps) && s.early == EarlyRegistrations(steps)
  {
    RunRegisters(Init<C, R>(), steps);
  }

  /** A callback registered when the result is there runs with it, without any other thread. */
  lemma LateCallbackRuns<C, R>(s: State<C, R>, c: C)
    requires s.lock.Free? && s.result.Some?
    ensures var steps := [Register(c), RunLate(|s.late|)];
            && CanRun(s, steps) && Run(s, steps).late == s.late
            && Run(s, steps).calls == s.calls + [Call(c, s.result.value)]
  {
    var t := Apply(s, Register(c));
    var run := Step<C, R>.RunLate(|s.late|);
    assert CanRun(Apply(t, run), []) && [run][1..] == [];
    assert CanRun(t, [run]) && Run(t, [run]) == Apply(t, run);
    assert [Register(c), run][1..] == [run];
    assert t.late[..|s.late|] + t.late[|s.late| + 1..] == s.late;
  }

  lemma {:induction false} RunThen<C, R>(s: State<C, R>, steps: seq<Step<C, R>>, step: Step<C, R>)
    requires CanRun(s, steps) && Enabled(Run(s, steps), step)
    ensures CanRun(s, steps + [step]) && Run(s, steps + [step]) == Apply(Run(s, steps), step)
    decreases steps
  {
    if steps == [] {
      assert (steps + [step])[1..] == [];
    } else {
      assert (steps + [step])[1..] == steps[1..] + [step];
      RunThen(Apply(s, steps[0]), steps[1..], step);
    }
  }

  /** A thread that asks when the result is there returns it at once. */
  lemma AskerReturns<C, R>(s: State<C, R>)
    requires s.lock.Free? && s.result.Some?
    ensures var t := Apply(s, Ask);
            && Enabled(t, Look(|s.waiters|))
            && Apply(t, Look(|s.waiters|)).waiters == s.waiters + [Returned(s.result.value)]
  {
  }

  /** A thread that asks before that sleeps, is woken by the completion and returns the result, whatever it is. */
  lemma SleeperReturns<C, R>(s: State<C, R>, value: R) returns (steps: seq<Step<C, R>>)
    requires s.lock.Free? && s.result.None?
    ensures CanRun(s, steps) && |Run(s, steps).waiters| == |s.waiters| + 1
    ensures Run(s, steps).waiters[|s.waiters|] == Returned(value)
  {
    var w := |s.waiters|;
    var asked := Apply(s, Ask);
    var asleep := Apply(asked, Look(w));
    assert asleep.waiters[w] == Sleeping;
    var rest := CompletionSteps(asleep, value);
    var done := Run(asleep, rest);
    assert done.waiters[w] == Woken;
    RunThen(asleep, rest, Collect(w));
    var looks := [Look(w)] + (rest + [Collect(w)]);
    assert looks[1..] == rest + [Collect(w)];
    steps := [Ask] + looks;
    assert steps[1..] == looks;
  }

  /** With the lock free anybody can register, ask or look, and a thread that was woken can look again. */
  lemma NobodyIsHeldUp<C, R>(s: State<C, R>, c: C)
    requires s.lock.Free?
    ensures Enabled(s, Register(c)) && Enabled(s, Ask)
    ensures forall w: nat | w < |s.waiters| ::
              (s.waiters[w].Asking? ==> Enabled(s, Look(w))) && (s.waiters[w].Woken? ==> Enabled(s, Collect(w)))
    ensures forall i: nat | i < |s.late| :: Enabled(s, RunLate(i))
  {
  }

  /** A spurious wake at any moment before the result is stored makes a thread that waits read an empty result. */
  lemma SpuriousWakeFaults<C, R>(s: State<C, R>, w: nat)
    requires s.lock.Free? && s.result.None? && w < |s.waiters| && s.waiters[w].Sleeping?
    ensures Enabled(s, Spurious(w)) && Enabled(Apply(s, Spurious(w)), Collect(w))
    ensures Apply(Apply(s, Spurious(w)), Collect(w)) == s.(waiters := s.waiters[w := Faulted])
  {
    assert s.waiters[w := Woken][w := Faulted] == s.waiters[w := Faulted];
  }

  /** A run in which a callback is registered, a thread waits, the result arrives and both get it. */
  lemma CallbackAndWaiter<C, R>(c: C, value: R) returns (steps: seq<Step<C, R>>, s: State<C, R>)
    ensures Reached(steps, s) && s.result == Some(value)
    ensures s.calls == [Call(c, value)] && s.waiters == [Returned(value)]
  {
    var registered := Apply(Init<C, R>(), Register(c));
    var asked := Apply(registered, Ask);
    var asleep := Apply(asked, Look(0));
    var rest := CompletionSteps(asleep, value);
    RunThen(asleep, rest, Collect(0));
    s := Apply(Run(asleep, rest), Collect(0));
    assert asleep.callbacks == [c] && asleep.waiters == [Sleeping];
    var done := Run(asleep, rest);
    assert done.waiters[0] == Woken && |done.waiters| == 1;
    assert done.calls == [] + Calls([c], value) == [Call(c, value)];
    assert s.waiters == [Returned(value)];
    var looks, asks := [Look(0)] + (rest + [Collect(0)]), [Ask] + ([Look(0)] + (rest + [Collect(0)]));
    assert looks[1..] == rest + [Collect(0)] && asks[1..] == looks;
    assert CanRun(asked, looks) && Run(asked, looks) == s;
    assert CanRun(registered, asks) && Run(registered, asks) == s;
    steps := [Register(c)] + asks;
    assert steps[1..] == asks && CanRun(Init<C, R>(), steps);
  }
}
