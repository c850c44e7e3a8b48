/**
 LooperExecutor (coroutine/include/6sleep/executor.h): one thread runs queued functions; shutdown(false)
 throws away what is queued, while other threads may be submitting.
 */
module Looper {

  datatype Phase = Head | Entering | Waiting | Awake | Running | Exited

  /** queue_lock: free between steps, or held by an execute that has seen is_active and is about to push. */
  datatype Lock<F> = Free | Pushing(func: F)

  /**
   accepted: every function pushed, in order; started: every function the worker began; finished: how many
   returned.
   */
  datatype State<F> = State(
    queue: seq<F>, active: bool, lock: Lock<F>, worker: Phase,
    accepted: seq<F>, started: seq<F>, finished: nat, dropped: seq<F>)

  function Init<F>(): State<F> {
    State([], true, Free, Head, [], [], 0, [])
  }

  datatype Step<F> =
    | Submit(func: F)     // execute locks and finds is_active set
    | Push                // it pushes, unlocks and notifies
    | Test                // the worker tests the loop condition without the lock
    | Take                // it locks; with an empty queue it waits, else it takes the front and unlocks
    | Wake                // it is woken, by a notification or for no reason
    | Retake              // it holds the lock again after the wait
    | Return              // the function returned
    | Deactivate          // shutdown clears is_active, without the lock
    | Clear               // shutdown(false) locks and empties the queue

  predicate Enabled<F>(s: State<F>, step: Step<F>) {
    match step
    case Submit(_) => s.lock.Free? && s.active
    case Push => s.lock.Pushing?
    case Test => s.worker.Head?
    case Take => s.lock.Free? && s.worker.Entering?
    case Wake => s.worker.Waiting?
    case Retake => s.lock.Free? && s.worker.Awake?
    case Return => s.worker.Running?
    case Deactivate => true
    case Clear => s.lock.Free? && !s.active
  }

  /** func = front, pop, unlock, run. */
  function RunFront<F>(s: State<F>): State<F>
    requires s.queue != []
  {
    s.(queue := s.queue[1..], started := s.started + [s.queue[0]], worker := Running)
  }

  function Apply<F>(s: State<F>, step: Step<F>): State<F>
    requires Enabled(s, step)
  {
    match step
    case Submit(f) => s.(lock := Pushing(f))
    case Push => s.(queue := s.queue + [s.lock.func], accepted := s.accepted + [s.lock.func], lock := Free)
    case Test => s.(worker := if s.active || s.queue != [] then Entering else Exited)
    case Take => if s.queue == [] then s.(worker := Waiting) else RunFront(s)
    case Wake => s.(worker := Awake)
    case Retake => if s.queue == [] then s.(worker := Head) else RunFront(s)
    case Return => s.(worker := Head, finished := s.finished + 1)
    case Deactivate => s.(active := false)
    case Clear => s.(queue := [], dropped := s.dropped + s.queue)
  }

  predicate CanRun<F>(s: State<F>, steps: seq<Step<F>>)
    decreases steps
  {
    steps == [] || (Enabled(s, steps[0]) && CanRun(Apply(s, steps[0]), steps[1..]))
  }

  function Run<F>(s: State<F>, steps: seq<Step<F>>): State<F>
    requires CanRun(s, steps)
    decreases steps
  {
    if steps == [] then s else Run(Apply(s, steps[0]), steps[1..])
  }

  /** Nothing was cleared yet, or the queue is empty and no push is under way or can begin. */
  ghost predicate Inv<F>(s: State<F>) {
    && s.accepted == s.started + s.queue + s.dropped
    && (s.dropped != [] ==> s.queue == [] && s.lock.Free? && !s.active)
    && |s.started| == s.finished + (if s.worker.Running? then 1 else 0)
  }

  lemma StepInv<F>(s: State<F>, step: Step<F>)
    requires Inv(s) && Enabled(s, step)
    ensures Inv(Apply(s, step))
  {
    var t := Apply(s, step);
    match step
    case Push => assert t.accepted == t.started + t.queue + t.dropped;
    case Clear => assert t.accepted == t.started + t.queue + t.dropped;
    case Take => if s.queue != [] { assert s.started + s.queue == t.started + t.queue; }
    case Retake => if s.queue != [] { assert s.started + s.queue == t.started + t.queue; }
    case _ =>
  }

  lemma {:induction false} RunInv<F>(s: State<F>, steps: seq<Step<F>>)
    requires Inv(s) && CanRun(s, steps)
    ensures Inv(Run(s, steps))
    decreases steps
  {
    if steps != [] {
      StepInv(s, steps[0]);
      RunInv(Apply(s, steps[0]), steps[1..]);
    }
  }

  /** The functions run are a prefix of those accepted, in their order, one at a time, even across shutdown(false). */
  lemma StartedIsPrefix<F>(steps: seq<Step<F>>, s: State<F>)
    requires CanRun(Init<F>(), steps) && s == Run(Init<F>(), steps)
    ensures s.started <= s.accepted
    ensures s.finished <= |s.started| <= s.finished + 1
    ensures s.worker.Running? <==> |s.started| == s.finished + 1
    ensures s.worker.Exited? && s.lock.Free? && !s.active && s.queue == [] ==> s.accepted == s.started + s.dropped
  {
    RunInv(Init<F>(), steps);
  }

  // ----- The steps of a run -----

  /** The functions that execute was called with while the looper was active. */
  function Submissions<F>(steps: seq<Step<F>>): seq<F> {
    if steps == [] then []
    else (if steps[0].Submit? then [steps[0].func] else []) + Submissions(steps[1..])
  }

  function UnderWay<F>(s: State<F>): seq<F> {
    if s.lock.Pushing? then [s.lock.func] else []
  }

  lemma {:induction false} RunAccepts<F>(s: State<F>, steps: seq<Step<F>>)
    requires CanRun(s, steps)
    ensures Run(s, steps).accepted + UnderWay(Run(s, steps)) == s.accepted + UnderWay(s) + Submissions(steps)
    ensures Run(s, steps).active <==> s.active && Deactivate !in steps
    ensures Run(s, steps).dropped != s.dropped ==> Clear in steps
    decreases steps
  {
    if steps != [] {
      var t := Apply(s, steps[0]);
      assert t.accepted + UnderWay(t)
          == s.accepted + UnderWay(s) + if steps[0].Submit? then [steps[0].func] else [];
      RunAccepts(t, steps[1..]);
    }
  }

  /** What was submitted while the looper was active is accepted, in order, but for a push under way. */
  lemma AcceptedAreSubmissions<F>(steps: seq<Step<F>>, s: State<F>)
    requires CanRun(Init<F>(), steps) && s == Run(Init<F>(), steps)
    ensures s.accepted + UnderWay(s) == Submissions(steps)
    ensures s.active <==> Deactivate !in steps
    ensures forall f: F | s.lock.Free? :: Enabled(s, Submit(f)) <==> Deactivate !in steps
    ensures Clear !in steps ==> s.dropped == []
  {
    RunAccepts(Init<F>(), steps);
  }

  /** A shutdown can come at any moment; it keeps the queue, and if it does not wait for it clears it under the lock. */
  lemma ShutdownSteps<F>(s: State<F>)
    requires s.lock.Free?
    ensures Enabled(s, Deactivate) && Apply(s, Deactivate) == s.(active := false)
    ensures Enabled(Apply(s, Deactivate), Clear)
    ensures Apply(Apply(s, Deactivate), Clear) == s.(active := false, queue := [], dropped := s.dropped + s.queue)
  {
  }

  /** The worker leaves its loop only after a shutdown and with nothing queued, and then it does. */
  lemma LeavesExactly<F>(steps: seq<Step<F>>, s: State<F>)
    requires CanRun(Init<F>(), steps) && s == Run(Init<F>(), steps) && s.worker.Head?
    ensures Apply(s, Test).worker.Exited? <==> s.queue == [] && Deactivate in steps
  {
    RunAccepts(Init<F>(), steps);
  }

  lemma RunCons<F>(s: State<F>, step: Step<F>, rest: seq<Step<F>>) returns (steps: seq<Step<F>>)
    requires Enabled(s, step) && CanRun(Apply(s, step), rest)
    ensures CanRun(s, steps) && Run(s, steps) == Run(Apply(s, step), rest) && steps == [step] + rest
  {
    steps := [step] + rest;
    assert steps[1..] == rest;
  }

  /** A worker that has not left its loop runs everything that is queued, in order and without any other thread. */
  lemma {:induction false} WorkerDrains<F>(s: State<F>) returns (steps: seq<Step<F>>, t: State<F>)
    requires s.lock.Free? && !s.worker.Exited?
    ensures CanRun(s, steps) && t == Run(s, steps) && forall step | step in steps ::
              step.Test? || step.Take? || step.Wake? || step.Retake? || step.Return?
    ensures t.queue == [] && t.started == s.started + s.queue
    decreases |s.queue|, Distance(s.worker)
  {
    if s.queue == [] {
      steps, t := [], s;
      assert s.started + s.queue == s.started;
    } else {
      var step := NextStep<F>(s.worker);
      var u := Apply(s, step);
      var rest;
      rest, t := WorkerDrains(u);
      assert u.started + u.queue == s.started + s.queue;
      steps := RunCons(s, step, rest);
    }
  }

  function NextStep<F>(worker: Phase): Step<F>
    requires !worker.Exited?
  {
    match worker
    case Running => Return
    case Head => Test
    case Entering => Take
    case Waiting => Wake
    case Awake => Retake
  }

  function Distance(worker: Phase): nat {
    match worker
    case Running => 3
    case Head => 2
    case Waiting => 2
    case _ => 1
  }

  /** The class, each method as it runs under the lock. */
  class LooperExecutor<F> {
    var queue: seq<F>
    var isActive: bool

    constructor ()
      ensures queue == [] && isActive
    {
      queue := [];
      isActive := true;
    }

    /** What the steps Submit and Push do together; false when the looper was shut down. */
    method Execute(func: F) returns (accepted: bool)
      modifies this
      ensures accepted == old(isActive) && isActive == old(isActive)
      ensures queue == if accepted then old(queue) + [func] else old(queue)
    {
      accepted := isActive;
      if isActive {
        queue := queue + [func];
      }
    }

    method TakeFront() returns (func: F)
      requires queue != []
      modifies this
      ensures func == old(queue)[0] && queue == old(queue)[1..] && isActive == old(isActive)
    {
      func := queue[0];
      queue := queue[1..];
    }

    method Shutdown(waitForComplete: bool)
      modifies this
      ensures !isActive && queue == if waitForComplete then old(queue) else []
    {
      isActive := false;
      if !waitForComplete {
        queue := [];
      }
    }
  }
}
