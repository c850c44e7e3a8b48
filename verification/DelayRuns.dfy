/** What the scheduler's runs do, told by their steps: times of requests and starts, deadlines, shutdowns. */
module DelayRuns {
  import opened Options
  import opened DelayHeap
  import opened DelayScheduler
  import opened DelayTheorems

  // ----- Requests -----

  /** The times of the requests that are pushed: the clock at the push and the delay asked for, if positive. */
  function PushTimes(s: State, steps: seq<Step>, delay: int): seq<int>
    requires CanRun(s, steps)
    decreases steps
  {
    if steps == [] then []
    else
      (if steps[0].Push? then [s.now + if delay < 0 then 0 else delay] else [])
      + PushTimes(Apply(s, steps[0]), steps[1..], if steps[0].Begin? && s.active then steps[0].delay else delay)
  }

  function Numbered(first: nat, times: seq<int>): seq<Entry> {
    seq(|times|, i requires 0 <= i < |times| => Entry(first + i, times[i]))
  }

  lemma OneMorePushed(before: seq<Entry>, pushed: bool, time: int, rest: seq<int>)
    ensures var middle := before + if pushed then [Entry(|before|, time)] else [];
            middle + Numbered(|middle|, rest) == before + Numbered(|before|, (if pushed then [time] else []) + rest)
  {
    if pushed {
      assert Numbered(|before|, [time] + rest) == [Entry(|before|, time)] + Numbered(|before| + 1, rest);
    } else {
      assert [] + rest == rest && before + [] == before;
    }
  }

  lemma TimesFirst(s: State, steps: seq<Step>, delay: int)
    requires CanRun(s, steps) && steps != []
    ensures var rest := PushTimes(Apply(s, steps[0]), steps[1..],
                                  if steps[0].Begin? && s.active then steps[0].delay else delay);
            PushTimes(s, steps, delay) ==
              (if steps[0].Push? then [s.now + if delay < 0 then 0 else delay] else []) + rest
  {
    hide Apply, Enabled;
  }

  lemma {:induction false} RunTimes(s: State, steps: seq<Step>, delay: int)
    requires CanRun(s, steps) && (s.lock.Pushing? ==> s.lock.delay == if delay < 0 then 0 else delay)
    ensures Run(s, steps).accepted == s.accepted + Numbered(|s.accepted|, PushTimes(s, steps, delay))
    decreases steps
  {
    if steps != [] {
      var asked := if steps[0].Begin? && s.active then steps[0].delay else delay;
      var rest := PushTimes(Apply(s, steps[0]), steps[1..], asked);
      StepTimes(s, steps[0], delay);
      TimesFirst(s, steps, delay);
      RunTimes(Apply(s, steps[0]), steps[1..], asked);
      hide Apply, Enabled, Numbered, PushTimes;
      OneMorePushed(s.accepted, steps[0].Push?, s.now + if delay < 0 then 0 else delay, rest);
    }
  }

  lemma StepTimes(s: State, step: Step, delay: int)
    requires Enabled(s, step) && (s.lock.Pushing? ==> s.lock.delay == if delay < 0 then 0 else delay)
    ensures var t, asked := Apply(s, step), if step.Begin? && s.active then step.delay else delay;
            && (t.lock.Pushing? ==> t.lock.delay == if asked < 0 then 0 else asked)
            && t.accepted == s.accepted
                 + if step.Push? then [Entry(|s.accepted|, s.now + if delay < 0 then 0 else delay)] else []
  {
    hide Pop, DelayHeap.Push;
  }

  /** The accepted tasks are those pushed, in order; each is due its delay, if positive, after its push. */
  lemma AcceptedAreDueAfterTheirDelay(start: int, steps: seq<Step>, s: State)
    requires Reached(start, steps, s)
    ensures var times := PushTimes(Init(start), steps, 0);
            |s.accepted| == |times| && forall i | 0 <= i < |times| :: s.accepted[i] == Entry(i, times[i])
  {
    RunTimes(Init(start), steps, 0);
  }

  // ----- Starts -----

  /** Whenever the worker begins to run a function: which, and at what time. */
  function StartsOf(s: State, steps: seq<Step>): seq<Start>
    requires CanRun(s, steps)
    decreases steps
  {
    if steps == [] then []
    else
      var t := Apply(s, steps[0]);
      (if t.worker.Running? && !s.worker.Running? then [Start(t.worker.copy, s.now)] else [])
      + StartsOf(t, steps[1..])
  }

  /** The log of starts is what the worker did. */
  lemma {:induction false} StartedIsStartsOf(s: State, steps: seq<Step>)
    requires CanRun(s, steps)
    ensures Run(s, steps).started == s.started + StartsOf(s, steps)
    decreases steps
  {
    if steps != [] {
      StepStarts(s, steps[0]);
      StartedIsStartsOf(Apply(s, steps[0]), steps[1..]);
    }
  }

  lemma StepStarts(s: State, step: Step)
    requires Enabled(s, step)
    ensures var t := Apply(s, step);
            t.started == s.started
              + if t.worker.Running? && !s.worker.Running? then [Start(t.worker.copy, s.now)] else []
  {
    hide Pop, DelayHeap.Push;
  }

  // ----- Deadlines -----

  ghost predicate DeadlineOk(s: State, most: nat) {
    s.worker.TimedWait? || s.worker.Notified? ==>
      s.worker.copy.time <= s.worker.deadline <= s.worker.copy.time + most
  }

  lemma StepDeadline(s: State, step: Step, most: nat)
    requires Enabled(s, step) && DeadlineOk(s, most) && (step.Lock? || step.Relock? ==> step.d <= most)
    ensures DeadlineOk(Apply(s, step), most)
  {
    hide Pop, DelayHeap.Push;
  }

  lemma {:induction false} RunDeadline(s: State, steps: seq<Step>, most: nat)
    requires CanRun(s, steps) && DeadlineOk(s, most)
    requires forall i | 0 <= i < |steps| && (steps[i].Lock? || steps[i].Relock?) :: steps[i].d <= most
    ensures DeadlineOk(Run(s, steps), most)
    decreases steps
  {
    if steps != [] {
      StepDeadline(s, steps[0], most);
      RunDeadline(Apply(s, steps[0]), steps[1..], most);
    }
  }

  /**
   A timed wait ends when its task is due, up to the time that passed between the worker's look at the clock
   and the beginning of its wait.
   */
  lemma WaitsUntilDue(start: int, steps: seq<Step>, s: State, most: nat)
    requires Reached(start, steps, s) && s.worker.TimedWait?
    requires forall i | 0 <= i < |steps| && (steps[i].Lock? || steps[i].Relock?) :: steps[i].d <= most
    ensures s.worker.copy.time <= s.worker.deadline <= s.worker.copy.time + most
  {
    RunDeadline(Init(start), steps, most);
  }

  /** A worker that sleeps for a task starts it by itself at its deadline, if nothing interfered. */
  lemma SleeperStartsTheCopy(start: int, steps: seq<Step>, s: State) returns (more: seq<Step>, t: State)
    requires Reached(start, steps, s) && s.worker.TimedWait? && s.lock.Free?
    requires !Interfered(Init(start), steps, Any, false)
    ensures var at := if s.now < s.worker.deadline then s.worker.deadline else s.now;
            Reached(start, more, t) && t.started == s.started + [Start(s.worker.copy, at)]
  {
    NotHarmed(start, steps, s);
    more, t := SleeperTimesOut(start, steps, s);
    hide Apply, Run, CanRun, Interfered;
    PopStarts(t);
    more := Then(Init(start), more, t, PopAndRun);
    t := Apply(t, PopAndRun);
  }

  lemma SleeperTimesOut(start: int, steps: seq<Step>, s: State) returns (more: seq<Step>, t: State)
    requires Reached(start, steps, s) && s.worker.TimedWait?
    ensures var at := if s.now < s.worker.deadline then s.worker.deadline else s.now;
            Reached(start, more, t) && t == s.(now := at, worker := TimedOut(s.worker.copy))
  {
    hide Pop, DelayHeap.Push, Run, CanRun;
    var d: nat := if s.now < s.worker.deadline then s.worker.deadline - s.now else 0;
    more := Then(Init(start), steps, s, Tick(d));
    t := s.(now := s.now + d);
    more := Then(Init(start), more, t, Timeout);
    t := t.(worker := TimedOut(s.worker.copy));
  }

  lemma NotHarmed(start: int, steps: seq<Step>, s: State)
    requires Reached(start, steps, s) && Held(s.worker).Some? && !Interfered(Init(start), steps, Any, false)
    ensures s.heap != [] && s.heap[0] == Held(s.worker).value
  {
    InitInv(start);
    RunInterfered(Init(start), steps, Any, false);
  }

  lemma PopStarts(s: State)
    requires s.worker.TimedOut? && s.lock.Free? && s.heap != []
    ensures Apply(s, PopAndRun).started == s.started + [Start(s.worker.copy, s.now)]
  {
    hide Pop, DelayHeap.Push;
  }

  // ----- Shutdown -----

  lemma {:induction false} RunDrops(s: State, steps: seq<Step>)
    requires CanRun(s, steps) && s.toClear == 0 && s.dropped == multiset{}
    requires Shutdown(false) !in steps
    ensures Run(s, steps).toClear == 0 && Run(s, steps).dropped == multiset{}
    decreases steps
  {
    if steps != [] {
      StepDrops(s, steps[0]);
      RunDrops(Apply(s, steps[0]), steps[1..]);
    }
  }

  lemma StepDrops(s: State, step: Step)
    requires Enabled(s, step) && s.toClear == 0 && s.dropped == multiset{} && step != Shutdown(false)
    ensures Apply(s, step).toClear == 0 && Apply(s, step).dropped == multiset{}
  {
    hide Pop, DelayHeap.Push;
  }

  lemma {:induction false} RunActive(s: State, steps: seq<Step>)
    requires CanRun(s, steps)
    ensures Run(s, steps).active <==> s.active && forall step | step in steps :: !step.Shutdown?
    decreases steps
  {
    if steps != [] {
      StepActive(s, steps[0]);
      RunActive(Apply(s, steps[0]), steps[1..]);
      assert steps == [steps[0]] + steps[1..];
    }
  }

  lemma StepActive(s: State, step: Step)
    requires Enabled(s, step)
    ensures Apply(s, step).active <==> s.active && !step.Shutdown?
  {
    hide Pop, DelayHeap.Push;
  }

  /** Tasks are refused only after a shutdown, and thrown away only after one that does not wait for them. */
  lemma ShutdownsAlone(start: int, steps: seq<Step>, s: State)
    requires Reached(start, steps, s)
    ensures s.active <==> forall step | step in steps :: !step.Shutdown?
    ensures Shutdown(false) !in steps ==> s.dropped == multiset{}
    ensures forall delay: int | s.lock.Free? :: s.active <==> Apply(s, Begin(delay)).lock.Pushing?
  {
    RunActive(Init(start), steps);
    if Shutdown(false) !in steps { RunDrops(Init(start), steps); }
  }

  /**
   A shutdown that waits keeps the queue, one that does not throws it away when it gets the lock; both notify.
   */
  lemma ShutdownSteps(s: State)
    requires s.lock.Free?
    ensures Apply(s, Shutdown(true)) == s.(active := false, toNotify := s.toNotify + 1)
    ensures var t := Apply(s, Shutdown(false));
            && !t.active && t.heap == s.heap && Enabled(t, Clear)
            && Apply(t, Clear).heap == [] && Apply(t, Clear).dropped == s.dropped + multiset(s.heap)
            && Apply(t, Clear).toNotify == s.toNotify + 1 && Apply(t, Clear).toClear == s.toClear
  {
  }

  // ----- The worker's loop -----

  /**
   A spurious wake brings a sleeping worker back to the head of its loop, or back to the queue; it may still
   report a timeout when its deadline has come.
   */
  lemma SpuriousWakes(s: State)
    requires s.lock.Free?
    ensures s.worker.TimedWait? ==> Apply(Apply(s, Spurious), Continue) == s.(worker := Head)
    ensures s.worker.TimedWait? && s.now >= s.worker.deadline ==>
              Apply(Apply(s, Spurious), Timeout) == s.(worker := TimedOut(s.worker.copy))
    ensures s.worker.Waiting? && s.heap == [] ==> Apply(Apply(s, Spurious), Relock(0)) == s.(worker := Head)
  {
  }

  /** A sleeping worker is woken by a notification, by its deadline or spuriously, and by nothing else. */
  lemma SleepsUntilWoken(s: State, step: Step)
    requires Enabled(s, step) && (s.worker.Waiting? || s.worker.TimedWait?)
    ensures Apply(s, step).worker != s.worker ==> step.NotifyWorker? || step.Spurious? || step.Timeout?
    ensures step.NotifyWorker? || step.Spurious? || step.Timeout? ==> Apply(s, step).worker != s.worker
  {
    hide Pop, DelayHeap.Push;
  }

  /** Whoever is not asleep can go on when the lock is free, and notifications and time need no lock. */
  lemma NobodyIsHeldUp(s: State, d: nat)
    ensures Apply(s, Tick(d)) == s.(now := s.now + d)
    ensures s.toNotify > 0 ==> Enabled(s, NotifyWorker)
    ensures s.worker.Head? ==> Enabled(s, Test)
    ensures s.worker.Running? ==> Enabled(s, Finish)
    ensures s.lock.Free? && s.worker.Entering? ==> Enabled(s, Lock(d))
    ensures s.lock.Free? && s.worker.TimedOut? ==> Enabled(s, PopAndRun)
    ensures s.lock.Free? && s.worker.Notified? ==> Enabled(s, Continue)
    ensures s.lock.Pushing? ==> Enabled(s, Step.Push)
    ensures s.lock.Free? && s.worker.Awake? ==> Enabled(s, Relock(d))
    ensures s.lock.Free? && s.worker.Awake? && s.heap != [] ==>
              Apply(s, Relock(d)) == Apply(s.(worker := Entering), Lock(d))
  {
    hide Pop, DelayHeap.Push;
  }

  function Finishes(steps: seq<Step>): nat {
    if steps == [] then 0 else (if steps[0].Finish? then 1 else 0) + Finishes(steps[1..])
  }

  lemma {:induction false} RunOverlaps(s: State, steps: seq<Step>)
    requires CanRun(s, steps)
    ensures var t := Run(s, steps);
            |t.started| - (if t.worker.Running? then 1 else 0)
              == |s.started| - (if s.worker.Running? then 1 else 0) + Finishes(steps)
    decreases steps
  {
    if steps != [] {
      StepStarts(s, steps[0]);
      StepOverlaps(s, steps[0]);
      hide Apply, Enabled;
      RunOverlaps(Apply(s, steps[0]), steps[1..]);
    }
  }

  lemma StepOverlaps(s: State, step: Step)
    requires Enabled(s, step)
    ensures step.Finish? <==> s.worker.Running? && !Apply(s, step).worker.Running?
  {
    hide Pop, DelayHeap.Push;
  }

  /** Tasks never overlap: all that started have finished, but for the one that is running. */
  lemma TasksNeverOverlap(start: int, steps: seq<Step>, s: State)
    requires Reached(start, steps, s)
    ensures |s.started| == Finishes(steps) + if s.worker.Running? then 1 else 0
  {
    RunOverlaps(Init(start), steps);
  }

  /** The worker leaves its loop only after a shutdown and with nothing queued, and then it does. */
  lemma LeavesExactly(start: int, steps: seq<Step>, s: State)
    requires Reached(start, steps, s) && s.worker.Head?
    ensures Apply(s, Test).worker.Exited? <==> s.heap == [] && exists step :: step in steps && step.Shutdown?
  {
    RunActive(Init(start), steps);
  }

  // ----- A run in which all goes well -----

  lemma {:induction false} PromptThen(s: State, steps: seq<Step>, step: Step)
    requires CanRun(s, steps + [step]) && CanRun(s, steps) && Prompt(s, steps)
    requires step.Timeout? ==> Run(s, steps).worker.TimedWait? && Run(s, steps).toNotify == 0
    ensures Prompt(s, steps + [step])
    decreases steps
  {
    if steps == [] {
      assert (steps + [step])[1..] == [];
    } else {
      assert (steps + [step])[1..] == steps[1..] + [step];
      PromptThen(Apply(s, steps[0]), steps[1..], step);
    }
  }

  lemma ThenPrompt(start: int, steps: seq<Step>, s: State, step: Step) returns (more: seq<Step>)
    requires Reached(start, steps, s) && Prompt(Init(start), steps) && Enabled(s, step)
    requires step.Timeout? ==> s.worker.TimedWait? && s.toNotify == 0
    ensures Reached(start, more, Apply(s, step)) && Prompt(Init(start), more)
  {
    var t := Apply(s, step);
    assert CanRun(t, []) && [step][1..] == [];
    assert CanRun(s, [step]) && Run(s, [step]) == t;
    RunAppend(Init(start), steps, [step]);
    PromptThen(Init(start), steps, step);
    more := steps + [step];
  }

  /** A single task, of any delay, is started exactly when it is due, on a schedule without late notifications. */
  lemma TaskStartsWhenDue(start: int, delay: nat) returns (steps: seq<Step>, s: State)
    requires delay > 0
    ensures Reached(start, steps, s) && Prompt(Init(start), steps)
    ensures s.started == [Start(Entry(0, start + delay), start + delay)]
  {
    hide Run, CanRun, Prompt, Pop, DelayHeap.Push;
    steps := PromptSubmit(start, delay);
    var e := Entry(0, start + delay);
    s := OneTask(start, e);
    steps := ThenPrompt(start, steps, s, NotifyWorker);
    s := s.(toNotify := 0);
    steps := ThenPrompt(start, steps, s, Test);
    s := s.(worker := Entering);
    steps := ThenPrompt(start, steps, s, Lock(0));
    s := s.(worker := TimedWait(e, start + delay));
    steps := ThenPrompt(start, steps, s, Tick(delay));
    s := s.(now := start + delay);
    steps := ThenPrompt(start, steps, s, Timeout);
    s := s.(worker := TimedOut(e));
    steps := ThenPrompt(start, steps, s, PopAndRun);
    s := Apply(s, PopAndRun);
  }

  lemma PromptSubmit(start: int, delay: nat) returns (steps: seq<Step>)
    ensures Reached(start, steps, OneTask(start, Entry(0, start + delay))) && Prompt(Init(start), steps)
  {
    var s := Init(start);
    steps := ThenPrompt(start, [], s, Begin(delay));
    FirstPush(start, delay);
    steps := ThenPrompt(start, steps, s.(lock := Pushing(delay, true)), Step.Push);
  }
}
