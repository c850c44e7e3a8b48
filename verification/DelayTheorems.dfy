/** What the delayed-task scheduler guarantees, and exactly when. */
module DelayTheorems {
  import opened Options
  import opened DelayHeap
  import opened DelayScheduler

  // ----- On every schedule -----

  /** No task starts before its scheduled time. */
  lemma StartsAreOnTime(start: int, steps: seq<Step>, s: State)
    requires Reached(start, steps, s)
    ensures forall i | 0 <= i < |s.started| :: s.started[i].entry.time <= s.started[i].at
  {
    ReachedInv(start, steps, s);
  }

  /** A worker that sleeps too long has a notification to come; else it sleeps for an earliest entry, or for any. */
  lemma NoLostNotification(start: int, steps: seq<Step>, s: State)
    requires Reached(start, steps, s) && s.toNotify == 0
    ensures s.worker.Waiting? ==> s.heap == []
    ensures s.worker.TimedWait? ==> s.worker.copy in s.heap && s.worker.copy.time <= s.worker.deadline
    ensures s.worker.TimedWait? ==> forall x | x in s.heap :: s.worker.copy.time <= x.time
  {
    ReachedInv(start, steps, s);
    if s.worker.TimedWait? {
      forall x | x in s.heap ensures s.worker.copy.time <= x.time {
        var k :| 0 <= k < |s.heap| && s.heap[k] == x;
        RootIsEarliest(s.heap, k);
      }
    }
  }

  // ----- Exactly when pop() removes the copy -----

  datatype Interference = Any | Clearing

  /** While the worker holds a copy, the queue is cleared or an entry is pushed that is due strictly before it. */
  predicate Interferes(s: State, step: Step, cause: Interference)
    requires Enabled(s, step)
  {
    && Held(s.worker).Some?
    && (step.Clear? || (cause.Any? && step.Push? && NewEntry(s).time < Held(s.worker).value.time))
  }

  /** Something interfered since the worker took the copy it holds; `before` says so of the time before `s`. */
  predicate Interfered(s: State, steps: seq<Step>, cause: Interference, before: bool)
    requires CanRun(s, steps)
    decreases steps
  {
    if steps == [] then before
    else Interfered(Apply(s, steps[0]), steps[1..], cause,
                    Held(s.worker).Some? && (before || Interferes(s, steps[0], cause)))
  }

  predicate Harmed(s: State, cause: Interference)
    requires Held(s.worker).Some?
  {
    s.heap == [] || (cause.Any? && s.heap[0] != Held(s.worker).value)
  }

  lemma StepInterfered(s: State, step: Step, cause: Interference, before: bool)
    requires Inv(s) && Enabled(s, step)
    requires Held(s.worker).Some? ==> (before <==> Harmed(s, cause))
    ensures var t := Apply(s, step);
            Held(t.worker).Some? ==>
              (Held(s.worker).Some? && (before || Interferes(s, step, cause)) <==> Harmed(t, cause))
  {
    if step.Push? && Held(s.worker).Some? {
      PushInterfered(s, cause, before);
    } else if !step.Push? {
      hide Inv;
      OtherInterfered(s, step, cause, before);
    }
  }

  /** No other step but a clear changes the queue under a worker that holds a copy. */
  lemma OtherInterfered(s: State, step: Step, cause: Interference, before: bool)
    requires Enabled(s, step) && !step.Push? && (Held(s.worker).Some? ==> (before <==> Harmed(s, cause)))
    ensures var t := Apply(s, step);
            Held(t.worker).Some? ==>
              (Held(s.worker).Some? && (before || Interferes(s, step, cause)) <==> Harmed(t, cause))
  {
    hide Pop;
  }

  lemma PushInterfered(s: State, cause: Interference, before: bool)
    requires Inv(s) && s.lock.Pushing? && Held(s.worker).Some? && (before <==> Harmed(s, cause))
    ensures before || Interferes(s, Step.Push, cause) <==> Harmed(Apply(s, Step.Push), cause)
  {
    PushProperties(s.heap, NewEntry(s));
    hide DelayHeap.Push, HeapOk, LogsOk, Account, OnTime, LockOk;
  }

  lemma {:induction false} RunInterfered(s: State, steps: seq<Step>, cause: Interference, before: bool)
    requires Inv(s) && ShutdownOk(s) && CanRun(s, steps)
    requires Held(s.worker).Some? ==> (before <==> Harmed(s, cause))
    ensures Held(Run(s, steps).worker).Some? ==> (Interfered(s, steps, cause, before) <==> Harmed(Run(s, steps), cause))
    decreases steps
  {
    if steps != [] {
      StepInv(s, steps[0]);
      StepInterfered(s, steps[0], cause, before);
      RunInterfered(Apply(s, steps[0]), steps[1..], cause,
                    Held(s.worker).Some? && (before || Interferes(s, steps[0], cause)));
    }
  }

  /** What is left of h when exactly x is removed. */
  ghost predicate Removes(h: Heap, left: Heap, x: Entry) {
    multiset(h) == multiset(left) + multiset{x}
  }

  lemma PopTakesOnlyTheRoot(s: State, x: Entry)
    requires Inv(s) && s.heap != []
    ensures Removes(s.heap, Pop(s.heap), x) <==> s.heap[0] == x
  {
    RootBag(s);
    var bag := multiset(Pop(s.heap));
    if s.heap[0] != x {
      assert (bag + multiset{x})[x] == bag[x] + 1;
      assert (bag + multiset{s.heap[0]})[x] == bag[x];
    }
  }

  /**
   After a timeout pop() removes the entry that the worker runs, if and only if, since the worker copied it,
   no entry due strictly earlier was pushed and the queue was not cleared. It finds the queue empty if and
   only if the queue was cleared.
   */
  lemma PopRemovesTheCopy(start: int, steps: seq<Step>, s: State)
    requires Reached(start, steps, s) && s.worker.TimedOut?
    ensures s.heap == [] <==> Interfered(Init(start), steps, Clearing, false)
    ensures (s.heap != [] && Removes(s.heap, Pop(s.heap), s.worker.copy)) <==>
              !Interfered(Init(start), steps, Any, false)
  {
    InitInv(start);
    ReachedInv(start, steps, s);
    RunInterfered(Init(start), steps, Clearing, false);
    RunInterfered(Init(start), steps, Any, false);
    if s.heap != [] { PopTakesOnlyTheRoot(s, s.worker.copy); }
  }

  // ----- Exactly when tasks are lost, started twice or started out of order -----

  /** The entry that a step starts. */
  function StartedBy(s: State, step: Step): Option<Entry>
    requires Enabled(s, step)
  {
    if s.heap == [] then None
    else if step.PopAndRun? then Some(s.worker.copy)
    else if (step.Lock? || step.Relock?) && s.heap[0].time <= s.now then Some(s.heap[0]) else None
  }

  /** A pop removes another entry than the copy; it also leaves one due before the copy; a left entry starts. */
  datatype Event = Displaces | Overtakes | Restarts

  ghost predicate Occurs(s: State, step: Step, e: Event)
    requires Enabled(s, step)
  {
    match e
    case Displaces => step.PopAndRun? && s.heap != [] && s.heap[0] != s.worker.copy
    case Overtakes =>
      step.PopAndRun? && s.heap != [] && s.heap[0] != s.worker.copy
      && exists x :: x in Pop(s.heap) && x.time < s.worker.copy.time
    case Restarts => StartedBy(s, step).Some? && StartedBy(s, step).value in s.left
  }

  ghost predicate Happens(s: State, steps: seq<Step>, e: Event)
    requires CanRun(s, steps)
    decreases steps
  {
    steps != [] && (Occurs(s, steps[0], e) || Happens(Apply(s, steps[0]), steps[1..], e))
  }

  lemma {:induction false} RunLeft(s: State, steps: seq<Step>)
    requires CanRun(s, steps)
    ensures s.left <= Run(s, steps).left
    ensures Run(s, steps).left != s.left <==> Happens(s, steps, Displaces)
    decreases steps
  {
    if steps != [] { RunLeft(Apply(s, steps[0]), steps[1..]); }
  }

  /** An earliest of the skipped entries was due before every left one. */
  lemma {:induction false} EarliestSkipped(left: seq<Entry>, skipped: seq<Entry>) returns (m: Entry)
    requires |left| == |skipped| > 0 && forall i | 0 <= i < |left| :: skipped[i].time < left[i].time
    ensures m in skipped && m !in left
    ensures forall i | 0 <= i < |left| :: m.time < left[i].time && m.time <= skipped[i].time
  {
    var last := |left| - 1;
    if last == 0 {
      m := skipped[0];
    } else {
      m := EarliestSkipped(left[..last], skipped[..last]);
      assert forall i | 0 <= i < last :: m.time < left[..last][i].time && m.time <= skipped[..last][i].time;
      if skipped[last].time < m.time { m := skipped[last]; }
    }
  }

  /** Every accepted entry is queued, started or dropped, exactly once. */
  ghost predicate Conserved(s: State) {
    multiset(s.accepted) == multiset(s.heap) + multiset(Entries(s.started)) + s.dropped
  }

  /** No task is lost and none is started in excess if and only if no pop removed another entry than the copy. */
  lemma ConservedExactly(start: int, steps: seq<Step>, s: State)
    requires Reached(start, steps, s)
    ensures Conserved(s) <==> !Happens(Init(start), steps, Displaces)
  {
    ReachedInv(start, steps, s);
    RunLeft(Init(start), steps);
    if s.left == [] {
      assert multiset(s.accepted) + multiset(s.left) == multiset(s.accepted);
      var rest := multiset(s.heap) + multiset(Entries(s.started)) + s.dropped;
      assert rest + multiset(s.skipped) == rest;
    } else {
      var m := EarliestSkipped(s.left, s.skipped);
      Unbalanced(s, m);
    }
  }

  lemma Unbalanced(s: State, m: Entry)
    requires Account(s) && m in s.skipped && m !in s.left
    ensures !Conserved(s)
  {
    BagMembers(s.left);
    BagMembers(s.skipped);
    var rest := multiset(s.heap) + multiset(Entries(s.started)) + s.dropped;
    assert (multiset(s.accepted) + multiset(s.left))[m] == multiset(s.accepted)[m];
    assert (rest + multiset(s.skipped))[m] == rest[m] + multiset(s.skipped)[m];
  }

  ghost predicate StartedOnce(log: seq<Start>) {
    forall i, j | 0 <= i < j < |log| :: log[i].entry.id != log[j].entry.id
  }

  lemma SameId(s: State, x: Entry, y: Entry)
    requires Inv(s) && x in s.accepted && y in s.accepted && x.id == y.id
    ensures x == y
  {
  }

  /** One more start keeps the starts unique if and only if it is not one of a left entry. */
  lemma OneMoreStart(s: State, x: Entry, at: int)
    requires Inv(s) && x in s.accepted && (x in Entries(s.started) <==> x in s.left)
    ensures StartedOnce(s.started + [Start(x, at)]) <==> StartedOnce(s.started) && x !in s.left
  {
    var log := s.started + [Start(x, at)];
    if x in s.left {
      var i :| 0 <= i < |s.started| && Entries(s.started)[i] == x;
      assert log[i].entry.id == log[|s.started|].entry.id;
    } else {
      forall i | 0 <= i < |s.started| ensures s.started[i].entry.id != x.id {
        assert Entries(s.started)[i] in Entries(s.started);
        if s.started[i].entry.id == x.id { SameId(s, s.started[i].entry, x); }
      }
    }
    if StartedOnce(log) {
      forall i, j | 0 <= i < j < |s.started| ensures s.started[i].entry.id != s.started[j].entry.id {
        assert log[i] == s.started[i] && log[j] == s.started[j];
      }
    }
  }

  lemma StepOnce(s: State, step: Step)
    requires Inv(s) && Enabled(s, step)
    ensures StartedOnce(Apply(s, step).started) <==> StartedOnce(s.started) && !Occurs(s, step, Restarts)
  {
    var x := StartedBy(s, step);
    if x.Some? {
      assert s.heap[0] in s.heap;
      OneMoreStart(s, x.value, s.now);
    } else {
      assert Apply(s, step).started == s.started;
    }
  }

  lemma {:induction false} RunOnce(s: State, steps: seq<Step>)
    requires Inv(s) && ShutdownOk(s) && CanRun(s, steps)
    ensures StartedOnce(Run(s, steps).started) <==> StartedOnce(s.started) && !Happens(s, steps, Restarts)
    decreases steps
  {
    if steps != [] {
      StepInv(s, steps[0]);
      StepOnce(s, steps[0]);
      RunOnce(Apply(s, steps[0]), steps[1..]);
    }
  }

  /**
   Only accepted tasks start, and each at most once if and only if no entry is started that an earlier
   displacing pop had run and left in the queue.
   */
  lemma StartedOnceExactly(start: int, steps: seq<Step>, s: State)
    requires Reached(start, steps, s)
    ensures forall i | 0 <= i < |s.started| :: s.started[i].entry in s.accepted
    ensures StartedOnce(s.started) <==> !Happens(Init(start), steps, Restarts)
  {
    InitInv(start);
    ReachedInv(start, steps, s);
    RunOnce(Init(start), steps);
    forall i | 0 <= i < |s.started| ensures s.started[i].entry in s.accepted {
      assert Entries(s.started)[i] in Entries(s.started);
    }
  }

  // ----- The order of starts -----

  ghost predicate Ordered(log: seq<Start>) {
    forall i, j | 0 <= i < j < |log| :: log[i].entry.time <= log[j].entry.time
  }

  lemma RootFirst(s: State, x: Entry)
    requires Inv(s) && x in s.heap
    ensures s.heap[0].time <= x.time
  {
    var k :| 0 <= k < |s.heap| && s.heap[k] == x;
    RootIsEarliest(s.heap, k);
  }

  /** Steps that neither push nor start. */
  lemma QuietStep(s: State, step: Step)
    requires Enabled(s, step) && StartedBy(s, step).None? && !step.Push?
    ensures Apply(s, step).started == s.started && (Apply(s, step).heap == s.heap || Apply(s, step).heap == [])
  {
  }

  /** The entries that an overtaking pop leaves queued although they are due before the copy it runs. */
  function LeftBehind(s: State, step: Step): set<Entry>
    requires Enabled(s, step)
  {
    if step.PopAndRun? && s.heap != [] && s.heap[0] != s.worker.copy
    then set x | x in Pop(s.heap) && x.time < s.worker.copy.time else {}
  }

  /** Some step starts an entry that an earlier pop left behind; `behind` are those left before `s`. */
  predicate StartsLate(s: State, steps: seq<Step>, behind: set<Entry>)
    requires CanRun(s, steps)
    decreases steps
  {
    steps != [] &&
    ((StartedBy(s, steps[0]).Some? && StartedBy(s, steps[0]).value in behind)
     || StartsLate(Apply(s, steps[0]), steps[1..], behind + LeftBehind(s, steps[0])))
  }

  /** x is due before something that has started. */
  ghost predicate Overtaken(log: seq<Start>, x: Entry) {
    exists i :: 0 <= i < |log| && x.time < log[i].entry.time
  }

  /** Everything in `behind` was overtaken, and so was no other queued entry. */
  ghost predicate BehindOk(s: State, behind: set<Entry>) {
    && (forall x | x in behind :: Overtaken(s.started, x))
    && (forall x | x in s.heap && Overtaken(s.started, x) :: x in behind)
  }

  lemma OneMoreOvertakes(log: seq<Start>, more: Start, x: Entry)
    ensures Overtaken(log + [more], x) <==> Overtaken(log, x) || x.time < more.entry.time
  {
    var all := log + [more];
    assert all[|log|] == more;
    if Overtaken(log, x) {
      var i :| 0 <= i < |log| && x.time < log[i].entry.time;
      assert all[i] == log[i];
    }
  }

  /** One more start keeps the order if and only if its entry was not overtaken. */
  lemma OneMoreOrdered(log: seq<Start>, more: Start)
    ensures Ordered(log + [more]) <==> Ordered(log) && !Overtaken(log, more.entry)
  {
    var all := log + [more];
    assert all[|log|] == more && forall i | 0 <= i < |log| :: all[i] == log[i];
    if Ordered(all) {
      forall i, j | 0 <= i < j < |log| ensures log[i].entry.time <= log[j].entry.time {
        assert all[i] == log[i] && all[j] == log[j];
      }
    }
  }

  /** What an entry that stays queued beside a start has to do with it. */
  lemma BehindAStart(s: State, step: Step, x: Entry, y: Entry)
    requires Inv(s) && Enabled(s, step) && StartedBy(s, step) == Some(x) && y in Pop(s.heap)
    ensures y.time < x.time <==> y in LeftBehind(s, step)
  {
    StartedIsQueued(s, step);
    if s.heap[0] == x {
      hide Inv, Pop;
      RootFirst(s, y);
    }
  }

  lemma StartBehind(s: State, step: Step, behind: set<Entry>, x: Entry)
    requires Inv(s) && BehindOk(s, behind) && Enabled(s, step) && StartedBy(s, step) == Some(x)
    ensures BehindOk(Apply(s, step), behind + LeftBehind(s, step))
    ensures Ordered(Apply(s, step).started) <==> Ordered(s.started) && x !in behind
  {
    StartShape(s, step);
    StartedIsQueued(s, step);
    hide Inv, Apply, BehindOk;
    forall y | y in Pop(s.heap) ensures y.time < x.time <==> y in LeftBehind(s, step) {
      BehindAStart(s, step, x, y);
    }
    LeftIsEarlier(s, step, x);
    hide Pop, LeftBehind, Enabled, StartedBy;
    StartKeepsBehind(s, Apply(s, step), behind, LeftBehind(s, step), x);
  }

  lemma LeftIsEarlier(s: State, step: Step, x: Entry)
    requires Enabled(s, step) && StartedBy(s, step) == Some(x)
    ensures forall y | y in LeftBehind(s, step) :: y.time < x.time
  {
  }

  lemma StartKeepsBehind(s: State, t: State, behind: set<Entry>, left: set<Entry>, x: Entry)
    requires BehindOk(s, behind) && x in s.heap && t.started == s.started + [Start(x, s.now)]
    requires forall y | y in t.heap :: y in s.heap && (y.time < x.time <==> y in left)
    requires forall y | y in left :: y.time < x.time
    ensures BehindOk(t, behind + left)
    ensures Ordered(t.started) <==> Ordered(s.started) && x !in behind
  {
    OneMoreOrdered(s.started, Start(x, s.now));
    forall y: Entry ensures Overtaken(t.started, y) <==> Overtaken(s.started, y) || y.time < x.time {
      OneMoreOvertakes(s.started, Start(x, s.now), y);
    }
    hide Overtaken, Ordered;
  }

  /** What is pushed is due no earlier than anything that has started. */
  lemma PushBehind(s: State, behind: set<Entry>)
    requires Inv(s) && BehindOk(s, behind) && s.lock.Pushing?
    ensures BehindOk(Apply(s, Step.Push), behind)
  {
    var heap := DelayHeap.Push(s.heap, NewEntry(s));
    PushProperties(s.heap, NewEntry(s));
    PushedHeap(s, heap);
    assert NewEntry(s).time >= s.now && !Overtaken(s.started, NewEntry(s));
  }

  lemma StepBehind(s: State, step: Step, behind: set<Entry>)
    requires Inv(s) && BehindOk(s, behind) && Enabled(s, step)
    ensures BehindOk(Apply(s, step), behind + LeftBehind(s, step))
    ensures Ordered(Apply(s, step).started) <==>
              Ordered(s.started) && !(StartedBy(s, step).Some? && StartedBy(s, step).value in behind)
  {
    hide Inv, Pop, DelayHeap.Push;
    if StartedBy(s, step).Some? {
      StartBehind(s, step, behind, StartedBy(s, step).value);
    } else if step.Push? {
      PushBehind(s, behind);
    } else {
      QuietStep(s, step);
    }
  }

  lemma {:induction false} RunBehind(s: State, steps: seq<Step>, behind: set<Entry>)
    requires Inv(s) && ShutdownOk(s) && BehindOk(s, behind) && CanRun(s, steps)
    ensures Ordered(Run(s, steps).started) <==> Ordered(s.started) && !StartsLate(s, steps, behind)
    decreases steps
  {
    if steps != [] {
      StepInv(s, steps[0]);
      StepBehind(s, steps[0], behind);
      RunBehind(Apply(s, steps[0]), steps[1..], behind + LeftBehind(s, steps[0]));
    }
  }

  /**
   Tasks start in the order of their times, whenever they were submitted, if and only if no task is started
   that an earlier pop had left queued although it was due before the copy which that pop ran.
   */
  lemma OrderedExactly(start: int, steps: seq<Step>, s: State)
    requires Reached(start, steps, s)
    ensures Ordered(s.started) <==> !StartsLate(Init(start), steps, {})
  {
    InitInv(start);
    RunBehind(Init(start), steps, {});
  }

  /** Tasks start in the order of their times, whenever they were submitted, if no pop overtakes. */
  lemma StartsAreOrdered(start: int, steps: seq<Step>, s: State)
    requires Reached(start, steps, s) && !Happens(Init(start), steps, Overtakes)
    ensures Ordered(s.started)
  {
    OrderedExactly(start, steps, s);
    NothingBehind(Init(start), steps);
  }

  lemma {:induction false} NothingBehind(s: State, steps: seq<Step>)
    requires CanRun(s, steps) && !Happens(s, steps, Overtakes)
    ensures !StartsLate(s, steps, {})
    decreases steps
  {
    hide Apply, Occurs, LeftBehind, StartedBy;
    if steps != [] {
      NothingLeft(s, steps[0]);
      var none: set<Entry> := {};
      assert none + LeftBehind(s, steps[0]) == none;
      NothingBehind(Apply(s, steps[0]), steps[1..]);
    }
  }

  lemma NothingLeft(s: State, step: Step)
    requires Enabled(s, step) && !Occurs(s, step, Overtakes)
    ensures LeftBehind(s, step) == {}
  {
    hide Pop;
  }

  // ----- If no notification is late, nothing of this happens -----

  /** Every timeout is reported while no notification is on its way or has arrived. */
  predicate Prompt(s: State, steps: seq<Step>)
    requires CanRun(s, steps)
    decreases steps
  {
    steps == [] ||
    ((steps[0].Timeout? ==> s.worker.TimedWait? && s.toNotify == 0) && Prompt(Apply(s, steps[0]), steps[1..]))
  }

  ghost predicate TopKept(s: State) {
    s.worker.TimedOut? && s.heap != [] ==> s.heap[0] == s.worker.copy
  }

  lemma StepPrompt(s: State, step: Step)
    requires Inv(s) && TopKept(s) && Enabled(s, step)
    requires step.Timeout? ==> s.worker.TimedWait? && s.toNotify == 0
    ensures TopKept(Apply(s, step)) && !Occurs(s, step, Displaces)
  {
    if step.Push? { PushPrompt(s); }
  }

  /** What is pushed after a timeout is due no earlier than the copy. */
  lemma PushPrompt(s: State)
    requires Inv(s) && TopKept(s) && s.lock.Pushing?
    ensures TopKept(Apply(s, Step.Push))
  {
    hide HeapOk, LogsOk, Account, OnTime;
    assert IsHeap(s.heap) by { HeapIsHeap(s); }
    PushProperties(s.heap, NewEntry(s));
    hide IsHeap, DelayHeap.Push;
  }

  lemma HeapIsHeap(s: State)
    requires HeapOk(s)
    ensures IsHeap(s.heap)
  {
  }

  lemma {:induction false} RunPrompt(s: State, steps: seq<Step>)
    requires Inv(s) && ShutdownOk(s) && TopKept(s) && CanRun(s, steps) && Prompt(s, steps)
    ensures TopKept(Run(s, steps)) && !Happens(s, steps, Displaces) && !Happens(s, steps, Overtakes)
    ensures s.left == [] ==> !Happens(s, steps, Restarts)
    decreases steps
  {
    if steps != [] {
      StepInv(s, steps[0]);
      StepPrompt(s, steps[0]);
      RunPrompt(Apply(s, steps[0]), steps[1..]);
    }
  }

  /**
   When no timeout overtakes a notification, pop() always removes the copy unless the queue was cleared,
   no task is lost, none starts twice, and all start in the order of their times.
   */
  lemma PromptRuns(start: int, steps: seq<Step>, s: State)
    requires Reached(start, steps, s) && Prompt(Init(start), steps)
    ensures s.worker.TimedOut? && s.heap != [] ==> Removes(s.heap, Pop(s.heap), s.worker.copy)
    ensures Conserved(s) && StartedOnce(s.started) && Ordered(s.started)
  {
    InitInv(start);
    ReachedInv(start, steps, s);
    RunPrompt(Init(start), steps);
    if s.worker.TimedOut? && s.heap != [] { PopTakesOnlyTheRoot(s, s.worker.copy); }
    ConservedExactly(start, steps, s);
    StartedOnceExactly(start, steps, s);
    StartsAreOrdered(start, steps, s);
  }

  // ----- What follows when it does happen -----

  ghost predicate Leads(s: State, steps: seq<Step>, t: State) {
    CanRun(s, steps) && t == Run(s, steps)
  }

  lemma {:induction false} RunAppend(s: State, a: seq<Step>, b: seq<Step>)
    requires CanRun(s, a) && CanRun(Run(s, a), b)
    ensures CanRun(s, a + b) && Run(s, a + b) == Run(Run(s, a), b)
    decreases a
  {
    if a == [] {
      assert a + b == b;
    } else {
      RunAppend(Apply(s, a[0]), a[1..], b);
      assert (a + b)[1..] == a[1..] + b;
    }
  }

  lemma Then(s: State, steps: seq<Step>, t: State, step: Step) returns (more: seq<Step>)
    requires Leads(s, steps, t) && Enabled(t, step)
    ensures Leads(s, more, Apply(t, step))
  {
    more := steps + [step];
    var u := Apply(t, step);
    assert [step][1..] == [] && CanRun(u, []) && Run(u, []) == u;
    assert CanRun(t, [step]) && Run(t, [step]) == u;
    RunAppend(s, steps, [step]);
  }

  lemma ThenAll(s: State, steps: seq<Step>, t: State, rest: seq<Step>, u: State) returns (more: seq<Step>)
    requires Leads(s, steps, t) && Leads(t, rest, u)
    ensures Leads(s, more, u)
  {
    more := steps + rest;
    RunAppend(s, steps, rest);
  }

  /** The worker finishes its function and runs the root, which is due. */
  lemma NextStart(t: State) returns (steps: seq<Step>)
    requires t.worker.Running? && t.lock.Free? && t.heap != [] && t.heap[0].time <= t.now
    ensures Leads(t, steps, RunRoot(t))
  {
    steps := Then(t, [], t, Finish);
    steps := Then(t, steps, t.(worker := Head), Test);
    steps := Then(t, steps, t.(worker := Entering), Lock(0));
  }

  lemma StillQueued(t: State, x: Entry)
    requires Inv(t) && x in t.heap && x != t.heap[0]
    ensures x in Pop(t.heap) && |Pop(t.heap)| < |t.heap|
  {
    PoppedHeap(t);
    assert |multiset(t.heap)| == |multiset(Pop(t.heap))| + 1;
  }

  /** A due entry in the queue will be run by the worker alone. */
  lemma {:induction false} DueEntryStarts(t: State, x: Entry) returns (steps: seq<Step>, u: State)
    requires Inv(t) && t.worker.Running? && t.lock.Free? && x in t.heap && x.time <= t.now
    ensures Leads(t, steps, u) && t.started < u.started && u.started[|u.started| - 1].entry == x
    decreases |t.heap|
  {
    hide Inv, Pop, Run, CanRun;
    RootFirst(t, x);
    steps := NextStart(t);
    u := RunRoot(t);
    if t.heap[0] != x {
      StillQueued(t, x);
      RunRootInv(t);
      var rest, v := DueEntryStarts(u, x);
      steps := ThenAll(t, steps, u, rest, v);
      u := v;
    }
  }

  lemma AfterDisplacing(s: State)
    requires Inv(s) && Enabled(s, PopAndRun) && Occurs(s, PopAndRun, Displaces)
    ensures var t, copy := Apply(s, PopAndRun), s.worker.copy;
            Inv(t) && t.worker.Running? && t.lock.Free? && copy in t.heap && copy.time <= t.now
            && t.started == s.started + [Start(copy, s.now)] && t.heap == Pop(s.heap)
  {
    PoppedHeap(s);
    RunOtherInv(s, s.worker.copy);
  }

  lemma TwoStarts(log: seq<Start>, x: Start, more: seq<Start>)
    requires log + [x] < more && more[|more| - 1].entry == x.entry
    ensures !StartedOnce(more)
  {
    assert more[|log|] == x;
    assert more[|log|].entry.id == more[|more| - 1].entry.id;
  }

  /** After a pop that displaced the copy the worker alone will start the same task a second time. */
  lemma DisplacedStartsTwice(start: int, before: seq<Step>, s: State) returns (steps: seq<Step>, u: State)
    requires Reached(start, before, s) && Enabled(s, PopAndRun) && Occurs(s, PopAndRun, Displaces)
    ensures Reached(start, steps, u) && !StartedOnce(u.started)
  {
    hide Pop, DelayHeap.Push, Run, CanRun;
    ReachedInv(start, before, s);
    AfterDisplacing(s);
    steps := Then(Init(start), before, s, PopAndRun);
    var t := Apply(s, PopAndRun);
    var x := Start(s.worker.copy, s.now);
    hide Inv, Apply, Occurs, StartedOnce;
    var rest;
    rest, u := DueEntryStarts(t, x.entry);
    steps := ThenAll(Init(start), steps, t, rest, u);
    TwoStarts(s.started, x, u.started);
  }

  /** After a pop that overtook, the next start is out of order. */
  lemma OvertakenStartsLate(start: int, before: seq<Step>, s: State) returns (steps: seq<Step>, u: State)
    requires Reached(start, before, s) && Enabled(s, PopAndRun) && Occurs(s, PopAndRun, Overtakes)
    ensures Reached(start, steps, u) && !Ordered(u.started)
  {
    hide Pop, DelayHeap.Push, Run, CanRun;
    ReachedInv(start, before, s);
    var t := Apply(s, PopAndRun);
    var copy := s.worker.copy;
    steps := Then(Init(start), before, s, PopAndRun);
    AfterDisplacing(s);
    var x :| x in t.heap && x.time < copy.time;
    RootFirst(t, x);
    hide Inv, Occurs;
    var rest := NextStart(t);
    u := RunRoot(t);
    steps := ThenAll(Init(start), steps, t, rest, u);
    var i := |s.started|;
    assert u.started[i].entry == copy && u.started[i + 1].entry == t.heap[0];
  }

  /** An entry that was removed is gone: it never starts again, or never at all. */
  lemma {:induction false} SkippedIsGone(s: State, steps: seq<Step>, x: Entry)
    requires Inv(s) && ShutdownOk(s) && CanRun(s, steps)
    requires x in s.accepted && x !in s.heap && Held(s.worker) != Some(x)
    ensures x in Entries(Run(s, steps).started) <==> x in Entries(s.started)
    decreases steps
  {
    if steps != [] {
      StepInv(s, steps[0]);
      StepGone(s, steps[0], x);
      SkippedIsGone(Apply(s, steps[0]), steps[1..], x);
    }
  }

  lemma StepGone(s: State, step: Step, x: Entry)
    requires Inv(s) && Enabled(s, step)
    requires x in s.accepted && x !in s.heap && Held(s.worker) != Some(x)
    ensures var t := Apply(s, step);
            x in t.accepted && x !in t.heap && Held(t.worker) != Some(x)
            && (x in Entries(t.started) <==> x in Entries(s.started))
  {
    if StartedBy(s, step).Some? {
      StartGone(s, step, x);
    } else if step.Push? {
      PushGone(s, x);
    } else {
      if s.heap != [] { assert s.heap[0] in s.heap; }
      hide Inv, IsHeap;
      QuietStep(s, step);
    }
  }

  lemma StartGone(s: State, step: Step, x: Entry)
    requires Inv(s) && Enabled(s, step) && StartedBy(s, step).Some? && x !in s.heap && Held(s.worker) != Some(x)
    ensures var t := Apply(s, step);
            x !in t.heap && Held(t.worker) != Some(x) && t.accepted == s.accepted
            && (x in Entries(t.started) <==> x in Entries(s.started))
  {
    StartShape(s, step);
    StartedIsQueued(s, step);
    MoreEntries(s.started, Start(StartedBy(s, step).value, s.now));
    hide *;
  }

  lemma StartShape(s: State, step: Step)
    requires Enabled(s, step) && StartedBy(s, step).Some?
    ensures var t := Apply(s, step);
            t.heap == Pop(s.heap) && t.accepted == s.accepted && Held(t.worker).None?
            && t.started == s.started + [Start(StartedBy(s, step).value, s.now)]
  {
    hide Pop, DelayHeap.Push;
  }

  lemma StartedIsQueued(s: State, step: Step)
    requires Inv(s) && Enabled(s, step) && StartedBy(s, step).Some?
    ensures StartedBy(s, step).value in s.heap && forall x | x in Pop(s.heap) :: x in s.heap
  {
    PoppedHeap(s);
    assert s.heap[0] in s.heap;
  }

  lemma PushGone(s: State, x: Entry)
    requires Inv(s) && s.lock.Pushing? && x in s.accepted && x !in s.heap
    ensures x !in Apply(s, Step.Push).heap
  {
    PushProperties(s.heap, NewEntry(s));
    PushedHeap(s, DelayHeap.Push(s.heap, NewEntry(s)));
  }

  // ----- Failing schedules -----

  /** The state in which the worker sleeps for its only task, of which the notification is still to come. */
  function Sleeping(now: int, due: int, e: Entry): State {
    State(now, [e], true, Free, 0, 1, TimedWait(e, due), [e], [], multiset{}, [], [])
  }

  /** One task was submitted before the worker looked for the first time. */
  function OneTask(now: int, e: Entry): State {
    State(now, [e], true, Free, 0, 1, Head, [e], [], multiset{}, [], [])
  }

  lemma FirstPush(now: int, delay: nat)
    ensures Apply(Init(now).(lock := Pushing(delay, true)), Step.Push) == OneTask(now, Entry(0, now + delay))
  {
    var e := Entry(0, now + delay);
    assert [] + [e] == [e];
    assert DelayHeap.Push([], e) == [e];
  }

  lemma SubmitsOne(start: int, delay: nat) returns (steps: seq<Step>)
    ensures Reached(start, steps, OneTask(start, Entry(0, start + delay)))
  {
    var s := Init(start);
    steps := Then(s, [], s, Begin(delay));
    FirstPush(start, delay);
    steps := Then(s, steps, s.(lock := Pushing(delay, true)), Step.Push);
  }

  lemma FallsAsleep(start: int, delay: nat) returns (steps: seq<Step>)
    requires delay > 0
    ensures Reached(start, steps, Sleeping(start, start + delay, Entry(0, start + delay)))
  {
    steps := SubmitsOne(start, delay);
    var s := OneTask(start, Entry(0, start + delay));
    steps := Then(Init(start), steps, s, Test);
    steps := Then(Init(start), steps, s.(worker := Entering), Lock(0));
  }

  /** shutdown(false) just after the timeout of a task, of any positive delay, makes pop() find an empty queue. */
  lemma PopOnEmptyQueueIsReachable(start: int, delay: nat) returns (steps: seq<Step>, s: State)
    requires delay > 0
    ensures Reached(start, steps, s) && s.worker.Broken?
  {
    hide Pop, DelayHeap.Push, Run, CanRun;
    var e := Entry(0, start + delay);
    steps := FallsAsleep(start, delay);
    var i := Init(start);
    s := Sleeping(start, start + delay, e);
    steps := Then(i, steps, s, Tick(delay));
    s := s.(now := start + delay);
    steps := Then(i, steps, s, Timeout);
    s := s.(worker := TimedOut(e));
    steps := Then(i, steps, s, Shutdown(false));
    s := s.(active := false, toClear := 1);
    steps := Then(i, steps, s, Clear);
    s := Apply(s, Clear);
    steps := Then(i, steps, s, PopAndRun);
    s := Apply(s, PopAndRun);
  }

  /**
   A task without a delay, submitted while the worker sleeps for another one, of any positive delay, whose
   notification comes after the timeout: the first task is started twice, and the second one is lost.
   */
  lemma LateNotificationIsReachable(start: int, delay: nat) returns (steps: seq<Step>, s: State)
    requires delay > 0
    ensures Reached(start, steps, s) && !StartedOnce(s.started) && !Conserved(s)
  {
    steps, s := TimesOutTooEarly(start, delay);
    steps, s := DisplacedStartsTwice(start, steps, s);
    RunOnceIsConserved(start, steps, s);
  }

  lemma TimesOutTooEarly(start: int, delay: nat) returns (steps: seq<Step>, s: State)
    requires delay > 0
    ensures Reached(start, steps, s) && Enabled(s, PopAndRun) && Occurs(s, PopAndRun, Displaces)
  {
    hide Pop, DelayHeap.Push, Run, CanRun;
    var e, f := Entry(0, start + delay), Entry(1, start);
    steps := FallsAsleep(start, delay);
    s := Sleeping(start, start + delay, e);
    steps := Then(Init(start), steps, s, Begin(0));
    s := s.(lock := Pushing(0, true));
    steps := Then(Init(start), steps, s, Step.Push);
    SecondPush(s, e, f);
    s := s.(heap := [f, e], accepted := [e, f], lock := Free, toNotify := 2);
    steps := Then(Init(start), steps, s, Tick(delay));
    s := s.(now := start + delay);
    steps := Then(Init(start), steps, s, Timeout);
    s := s.(worker := TimedOut(e));
  }

  lemma SecondPush(s: State, e: Entry, f: Entry)
    requires s.heap == [e] && s.accepted == [e] && s.lock == Pushing(0, true) && s.toNotify == 1
    requires NewEntry(s) == f && f.time < e.time
    ensures Apply(s, Step.Push) == s.(heap := [f, e], accepted := [e, f], lock := Free, toNotify := 2)
  {
    assert [e] + [f] == [e, f];
    assert Swap([e, f], 1, 0) == [f, e];
    assert SiftUp([e, f], 1) == [f, e];
  }

  /** A task that starts twice means that some pop displaced. */
  lemma RunOnceIsConserved(start: int, steps: seq<Step>, s: State)
    requires Reached(start, steps, s) && !StartedOnce(s.started)
    ensures !Conserved(s)
  {
    ConservedExactly(start, steps, s);
    StartedOnceExactly(start, steps, s);
    if !Happens(Init(start), steps, Displaces) { NeverRestarts(Init(start), steps); }
  }

  lemma {:induction false} NeverRestarts(s: State, steps: seq<Step>)
    requires CanRun(s, steps) && s.left == [] && !Happens(s, steps, Displaces)
    ensures !Happens(s, steps, Restarts)
    decreases steps
  {
    if steps != [] { NeverRestarts(Apply(s, steps[0]), steps[1..]); }
  }
}
