/** What the schedules of a tree of tasks have in common, told by their steps: sleeps, resumes and completion. */
module CoroutineRuns {
  import opened Options
  import opened Coroutines
  import opened CoroutineProofs

  // ----- A sleep goes through the scheduler, and nothing else does -----

  /**
   The due time of the sleep at which suspension t began, if it began at one; `begun` is that of the time
   before `s`.
   */
  function SleepDue<V>(s: State<V>, steps: seq<Step<V>>, t: Token, begun: Option<int>): Option<int>
    requires CanRun(s, steps)
    decreases steps
  {
    if steps == [] then begun else SleepDue(Apply(s, steps[0]), steps[1..], t, DueAfter(s, steps[0], t, begun))
  }

  function DueAfter<V>(s: State<V>, step: Step<V>, t: Token, begun: Option<int>): Option<int>
    requires Enabled(s, step)
  {
    if begun.None? && step.Advance? && step.id == t.id
       && s.cos[t.id].rest.Sleep? && t.epoch == s.cos[t.id].epochs + 1
    then Some(s.now + if s.cos[t.id].rest.delay < 0 then 0 else s.cos[t.id].rest.delay) else begun
  }

  predicate Fires<V>(steps: seq<Step<V>>, t: Token) {
    exists i :: 0 <= i < |steps| && steps[i].Fire? && steps[i].token == t
  }

  /** A sleep that has begun is a timer until the scheduler runs it, which it does not before its time. */
  ghost predicate SleepOk<V>(s: State<V>, t: Token, begun: Option<int>, fired: bool) {
    && s.timers[t] == (if begun.Some? && !fired then 1 else 0)
    && (begun.Some? ==> t.id < |s.cos| && t.epoch <= s.cos[t.id].epochs)
    && (begun.Some? && !fired ==> t in s.due && s.due[t] == begun.value)
    && (fired ==> begun.Some? && begun.value <= s.now)
  }

  lemma EpochsGrow<V>(s: State<V>, step: Step<V>, i: nat)
    requires Enabled(s, step) && i < |s.cos|
    ensures i < |Apply(s, step).cos| && s.cos[i].epochs <= Apply(s, step).cos[i].epochs
    ensures step.Advance? && step.id == i && s.cos[i].rest.Sleep? ==>
              Apply(s, step).cos[i].epochs == s.cos[i].epochs + 1
  {
    if step.Advance? { AdvanceEpochs(s, step.id, i); }
  }

  lemma AdvanceEpochs<V>(s: State<V>, id: nat, i: nat)
    requires Enabled(s, Advance(id)) && i < |s.cos|
    ensures i < |Apply(s, Advance(id)).cos|
    ensures Apply(s, Advance(id)).cos[i].epochs ==
      s.cos[i].epochs + if i == id && (s.cos[i].rest.Sleep? || s.cos[i].rest.Await?) then 1 else 0
  {
    hide WellFormed;
    match s.cos[id].rest
    case Return(_) =>
    case Sleep(_, _) =>
    case Call(_, _, _) =>
    case Await(_, _) =>
    case Branch(_, _, _) =>
  }

  /** What a step does to the timers and their times. */
  lemma StepTimer<V>(s: State<V>, step: Step<V>, t: Token)
    requires Enabled(s, step)
    ensures var u := Apply(s, step);
            var sleeps := step.Advance? && s.cos[step.id].rest.Sleep? && t == Token(step.id, s.cos[step.id].epochs + 1);
            && u.timers[t] == s.timers[t]
                 + (if sleeps then 1 else if step.Fire? && step.token == t then -1 else 0)
            && (sleeps ==> t in u.due)
            && (sleeps ==> u.due[t] == s.now + if s.cos[step.id].rest.delay < 0 then 0 else s.cos[step.id].rest.delay)
            && (!sleeps && t in s.due ==> t in u.due && u.due[t] == s.due[t])
            && s.now <= u.now
            && (step.Fire? && step.token == t ==> s.timers[t] > 0 && t in s.due && s.due[t] <= s.now)
  {
    hide WellFormed;
  }

  lemma StepSleep<V>(s: State<V>, step: Step<V>, t: Token, begun: Option<int>, fired: bool)
    requires Enabled(s, step) && SleepOk(s, t, begun, fired)
    ensures SleepOk(Apply(s, step), t, DueAfter(s, step, t, begun), fired || (step.Fire? && step.token == t))
  {
    StepTimer(s, step, t);
    if t.id < |s.cos| { EpochsGrow(s, step, t.id); }
    hide Apply, WellFormed;
  }

  lemma {:induction false} RunSleep<V>(s: State<V>, steps: seq<Step<V>>, t: Token, begun: Option<int>, fired: bool)
    requires CanRun(s, steps) && SleepOk(s, t, begun, fired)
    ensures SleepOk(Run(s, steps), t, SleepDue(s, steps, t, begun), fired || Fires(steps, t))
    decreases steps
  {
    if steps != [] {
      StepSleep(s, steps[0], t, begun, fired);
      RunSleep(Apply(s, steps[0]), steps[1..], t, DueAfter(s, steps[0], t, begun),
               fired || (steps[0].Fire? && steps[0].token == t));
      FiresFirst(steps, t);
    }
  }

  lemma FiresFirst<V>(steps: seq<Step<V>>, t: Token)
    requires steps != []
    ensures Fires(steps, t) <==> (steps[0].Fire? && steps[0].token == t) || Fires(steps[1..], t)
  {
    if Fires(steps, t) {
      var i :| 0 <= i < |steps| && steps[i].Fire? && steps[i].token == t;
      if i > 0 { assert steps[1..][i - 1].Fire? && steps[1..][i - 1].token == t; }
    }
    if Fires(steps[1..], t) {
      var i :| 0 <= i < |steps[1..]| && steps[1..][i].Fire? && steps[1..][i].token == t;
      assert steps[i + 1].Fire? && steps[i + 1].token == t;
    }
  }

  /**
   A suspension whose resume an executor holds began at a sleep if and only if the scheduler has run its timer,
   and then its time has come. While the timer is set, it is one of a sleep that the scheduler has not run.
   */
  lemma SleepsThroughScheduler<V(!new)>(steps: seq<Step<V>>, s: State<V>, t: Token)
    requires Reached(steps, s)
    ensures var due := SleepDue(Init<V>(), steps, t, None);
            && (t in s.ready ==> (due.Some? <==> Fires(steps, t)))
            && (t in s.ready && due.Some? ==> due.value <= s.now)
            && (t in s.timers ==> due.Some? && !Fires(steps, t))
            && (due.Some? && !Fires(steps, t) ==> t in s.timers && (Enabled(s, Fire(t)) <==> due.value <= s.now))
  {
    InitGood<V>();
    RunGood(Init<V>(), steps);
    RunSleep(Init<V>(), steps, t, None, false);
    assert Accounted(s, t);
    PendingNonNegative(s, t);
  }

  // ----- Resumes -----

  function Resumes<V>(steps: seq<Step<V>>): seq<Token> {
    if steps == [] then []
    else (if steps[0].Resume? then [steps[0].token] else []) + Resumes(steps[1..])
  }

  lemma {:induction false} ResumedIsResumes<V>(s: State<V>, steps: seq<Step<V>>)
    requires CanRun(s, steps)
    ensures Run(s, steps).resumed == s.resumed + Resumes(steps)
    decreases steps
  {
    if steps != [] {
      StepResumed(s, steps[0]);
      ResumedIsResumes(Apply(s, steps[0]), steps[1..]);
    }
  }

  /** No schedule resumes a suspension twice. */
  lemma SchedulesResumeOnce<V(!new)>(steps: seq<Step<V>>, s: State<V>)
    requires Reached(steps, s)
    ensures s.resumed == Resumes(steps)
    ensures forall k, l | 0 <= k < l < |Resumes(steps)| :: Resumes(steps)[k] != Resumes(steps)[l]
  {
    ResumedIsResumes(Init<V>(), steps);
    ResumedAtMostOnce(steps, s);
  }

  // ----- Completion -----

  lemma {:induction false} RunThen<V>(s: State<V>, steps: seq<Step<V>>, step: Step<V>)
    requires CanRun(s, steps) && Enabled(Run(s, steps), step)
    ensures CanRun(s, steps + [step]) && Run(s, steps + [step]) == Apply(Run(s, steps), step)
    decreases steps
  {
    if steps == [] {
      assert (steps + [step])[1..] == [];
    } else {
      assert (steps + [step])[1..] == steps[1..] + [step];
      RunThen(Apply(s, steps[0]), steps[1..], step);
    }
  }

  lemma Then<V>(steps: seq<Step<V>>, s: State<V>, step: Step<V>) returns (more: seq<Step<V>>)
    requires Reached(steps, s) && Enabled(s, step)
    ensures Reached(more, Apply(s, step)) && more == steps + [step]
  {
    more := steps + [step];
    RunThen(Init<V>(), steps, step);
  }

  /** In every reachable state a task can be started, an active coroutine can go on and a queued resume can be run. */
  lemma NobodyIsHeldUp<V(!new)>(steps: seq<Step<V>>, s: State<V>, body: Prog<V>, args: seq<V>)
    requires Reached(steps, s) && WellFormed(body, 0)
    ensures Enabled(s, Start(body, args)) && Token(|s.cos|, 0) in Apply(s, Start(body, args)).ready
    ensures forall id: nat | id < |s.cos| && s.cos[id].status.Active? :: Enabled(s, Advance(id))
    ensures forall t | t in s.ready :: Enabled(s, Resume(t))
  {
    InitGood<V>();
    RunGood(Init<V>(), steps);
    forall id: nat | id < |s.cos| && s.cos[id].status.Active? ensures Enabled(s, Advance(id)) {
      assert CoOk(s.cos, id, s.cos[id]);
    }
    forall t | t in s.ready ensures Enabled(s, Resume(t)) { ReadyResumesRun(s, t); }
  }

  /** From every reachable state all tasks can be finished. */
  lemma {:induction false} CanFinish<V(!new)>(steps: seq<Step<V>>, s: State<V>)
    returns (more: seq<Step<V>>, t: State<V>)
    requires Reached(steps, s)
    ensures steps <= more && Reached(more, t) && forall i | 0 <= i < |t.cos| :: t.cos[i].result.Some?
    decreases Work(s)
  {
    if i: nat :| i < |s.cos| && s.cos[i].result.None? {
      var wait, step := UnfinishedMoves(steps, s, i);
      var waited := Then(steps, s, Tick(wait));
      var later := Apply(s, Tick(wait));
      var next := Then(waited, later, step);
      WorkDrops(steps, s, wait, step);
      more, t := CanFinish(next, Apply(later, step));
    } else {
      more, t := steps, s;
    }
  }

  lemma WorkDrops<V(!new)>(steps: seq<Step<V>>, s: State<V>, wait: nat, step: Step<V>)
    requires Reached(steps, s) && Enabled(Apply(s, Tick(wait)), step) && !step.Start? && !step.Tick?
    ensures 0 <= Work(Apply(Apply(s, Tick(wait)), step)) < Work(s)
  {
    InitGood<V>();
    RunGood(Init<V>(), steps);
    StepGood(s, Tick(wait));
    StepWork(s, Tick(wait));
    StepWork(Apply(s, Tick(wait)), step);
    WorkNonNegative(Apply(Apply(s, Tick(wait)), step));
  }

  /** A task that was started can return, and what it returns is its direct-style value. */
  lemma TaskReturns<V(!new)>(body: Prog<V>, args: seq<V>) returns (steps: seq<Step<V>>, s: State<V>)
    requires WellFormed(body, 0)
    ensures Reached(steps, s) && |s.cos| > 0 && s.cos[0].result == Some(Eval(body, args, []))
  {
    var first := Then([], Init<V>(), Start(body, args));
    var t := Apply(Init<V>(), Start(body, args));
    steps, s := CanFinish(first, t);
    assert steps == first + steps[1..];
    RunKeepsBody(t, steps[1..], 0);
    AsyncRefinesDirect(steps, s, 0);
  }

  /** A coroutine that calls another one, sleeps, awaits the task and uses what it gets returns what it computes. */
  lemma AwaitedValueReturns<V(!new)>(f: seq<V> -> V, args: seq<V> -> seq<V>, delay: int, g: seq<V> -> V, locals: seq<V>)
    returns (steps: seq<Step<V>>, s: State<V>)
    ensures Reached(steps, s) && |s.cos| > 0 && s.cos[0].result == Some(g(locals + [f(args(locals))]))
  {
    var awaits := Await(0, Return(g));
    var sleeps := Sleep(delay, awaits);
    var body := Call(Return(f), args, sleeps);
    var value := f(args(locals));
    assert [] + [value] == [value];
    assert WellFormed(Return(g), 1) && WellFormed(Return(f), 0);
    assert WellFormed(awaits, 1);
    assert WellFormed(sleeps, 1);
    assert WellFormed(body, 0);
    assert Eval(Return(g), locals + [value], [value]) == g(locals + [value]);
    assert Eval(awaits, locals, [value]) == Eval(Return(g), locals + [value], [value]);
    assert Eval(sleeps, locals, [value]) == Eval(awaits, locals, [value]);
    assert Eval(Return(f), args(locals), []) == value && Eval(body, locals, []) == g(locals + [value]);
    steps, s := TaskReturns(body, locals);
  }

  lemma {:induction false} RunKeepsBody<V>(s: State<V>, steps: seq<Step<V>>, i: nat)
    requires CanRun(s, steps) && i < |s.cos|
    ensures i < |Run(s, steps).cos|
    ensures Run(s, steps).cos[i].body == s.cos[i].body && Run(s, steps).cos[i].args == s.cos[i].args
    decreases steps
  {
    if steps != [] {
      BodyKept(s, steps[0], i);
      RunKeepsBody(Apply(s, steps[0]), steps[1..], i);
    }
  }
}
