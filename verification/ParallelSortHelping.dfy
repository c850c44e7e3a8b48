/** Where the child of a waiting frame is, and what follows for a single worker. */
module ParallelSortHelping {
  import opened Sums
  import opened Ordering
  import opened WorkQueues
  import opened ParallelSort
  import opened ParallelSortSafety
  import opened ParallelSortProgress
  import opened ParallelSortTheorems

  predicate HasChild<T>(f: Frame<T>) {
    f.phase.Forked? || f.phase.Wait?
  }

  /** Job c is in no queue but that of worker w. */
  ghost predicate OnlyAt<T>(q: Queues<Job<T>>, w: nat, c: nat) {
    && (forall k | 0 <= k < |q.shared| :: q.shared[k].id != c)
    && (forall v, k | 0 <= v < |q.local| && v != w && 0 <= k < |q.local[v]| :: q.local[v][k].id != c)
  }

  /** Job c is on no stack but above frame i of worker w. */
  ghost predicate OnlyAbove<T>(stacks: seq<seq<Frame<T>>>, w: nat, i: nat, c: nat) {
    forall v, j | 0 <= v < |stacks| && 0 <= j < |stacks[v]| && stacks[v][j].target == ToTask(c) :: v == w && j > i
  }

  ghost predicate FrameHome<T>(s: State<T>, w: nat, i: nat)
    requires w < |s.stacks| && i < |s.stacks[w]| && HasChild(s.stacks[w][i])
  {
    var c := s.stacks[w][i].phase.child;
    OnlyAt(s.queues, w, c) && (!s.stealing ==> OnlyAbove(s.stacks, w, i, c))
  }

  /**
   A child is queued with its parent's worker or not at all; without stealing it also runs there, above its
   parent.
   */
  ghost predicate Home<T>(s: State<T>) {
    forall w, i | 0 <= w < |s.stacks| && 0 <= i < |s.stacks[w]| && HasChild(s.stacks[w][i]) :: FrameHome(s, w, i)
  }

  lemma ChildIssued<T(!new)>(lt: (T, T) -> bool, s: State<T>, w: nat, i: nat)
    requires Inv(lt, s) && w < |s.stacks| && i < |s.stacks[w]|
    ensures HasChild(s.stacks[w][i]) ==> s.stacks[w][i].phase.child < |s.issued|
    ensures s.stacks[w][i].target.ToTask? ==> s.stacks[w][i].target.id < |s.issued|
  {
    assert StackOk(lt, s.issued, s.clock, s.stacks[w]);
    assert FrameOk(lt, s.issued, s.clock, s.stacks[w][i]);
  }

  // ----- Queues -----

  lemma SubmitOnlyAt<T>(q: Queues<Job<T>>, me: int, job: Job<T>, w: nat, c: nat)
    requires -1 <= me < |q.local| && OnlyAt(q, w, c) && (job.id != c || me == w)
    ensures OnlyAt(q.Submit(me, job), w, c)
  {
  }

  lemma TakeOnlyAt<T>(q: Queues<Job<T>>, me: nat, from: Source, w: nat, c: nat)
    requires q.CanTake(me, from) && OnlyAt(q, w, c)
    ensures OnlyAt(q.Take(me, from), w, c)
    ensures q.Job(me, from).id == c && !from.Victim? ==> me == w
  {
  }

  lemma QueuesHome<T(!new)>(lt: (T, T) -> bool, s: State<T>, step: Step<T>, w: nat, c: nat)
    requires Enabled(lt, s, step) && OnlyAt(s.queues, w, c) && c < |s.issued|
    ensures OnlyAt(Apply(lt, s, step).queues, w, c)
  {
    hide OnlyAt, Queues.Submit, Queues.Take, Partition;
    match step
    case Submit(input) => SubmitOnlyAt(s.queues, -1, Job(|s.issued|, input), w, c);
    case Fork(v, lower, _) => SubmitOnlyAt(s.queues, v, Job(|s.issued|, lower), w, c);
    case Take(v, from) => TakeOnlyAt(s.queues, v, from, w, c);
    case _ =>
  }

  // ----- Stacks -----

  /** A frame of the next state was there before for the same caller or job, or is the one of the job just taken. */
  lemma TargetKept<T(!new)>(lt: (T, T) -> bool, s: State<T>, step: Step<T>, v: nat, j: nat)
    requires Enabled(lt, s, step) && v < |Apply(lt, s, step).stacks| && j < |Apply(lt, s, step).stacks[v]|
    ensures var g := Apply(lt, s, step).stacks[v][j];
            v < |s.stacks| &&
            (g.target.ToCaller? || (j < |s.stacks[v]| && g.target == s.stacks[v][j].target)
             || (step.Take? && v == step.w && j == |s.stacks[v]|
                 && g.target == ToTask(s.queues.Job(step.w, step.from).id)))
  {
    hide Partition, Queues.Submit, Queues.Take;
  }

  /** A frame with a child had the same child before, or has just forked it. */
  lemma ChildKept<T(!new)>(lt: (T, T) -> bool, s: State<T>, step: Step<T>, w: nat, i: nat)
    requires Enabled(lt, s, step) && w < |Apply(lt, s, step).stacks| && i < |Apply(lt, s, step).stacks[w]|
    requires HasChild(Apply(lt, s, step).stacks[w][i])
    ensures var g := Apply(lt, s, step).stacks[w][i];
            w < |s.stacks| && i < |s.stacks[w]| &&
            ((HasChild(s.stacks[w][i]) && s.stacks[w][i].phase.child == g.phase.child)
             || (step.Fork? && step.w == w && g.phase.child == |s.issued|))
  {
    hide Partition, Queues.Submit, Queues.Take;
  }

  lemma StacksHome<T(!new)>(lt: (T, T) -> bool, s: State<T>, step: Step<T>, w: nat, i: nat, c: nat)
    requires Enabled(lt, s, step) && !s.stealing && w < |s.stacks| && i < |s.stacks[w]|
    requires OnlyAt(s.queues, w, c) && OnlyAbove(s.stacks, w, i, c)
    ensures OnlyAbove(Apply(lt, s, step).stacks, w, i, c)
  {
    var t := Apply(lt, s, step);
    if step.Take? { TakeOnlyAt(s.queues, step.w, step.from, w, c); }
    forall v, j | 0 <= v < |t.stacks| && 0 <= j < |t.stacks[v]| && t.stacks[v][j].target == ToTask(c)
      ensures v == w && j > i
    {
      TargetKept(lt, s, step, v, j);
    }
  }

  /** A new job is nowhere else yet. */
  lemma ForkedHome<T(!new)>(lt: (T, T) -> bool, s: State<T>, w: nat, lower: seq<T>, higher: seq<T>, i: nat)
    requires Inv(lt, s) && Enabled(lt, s, Fork(w, lower, higher))
    ensures var t := Apply(lt, s, Fork(w, lower, higher));
            OnlyAt(t.queues, w, |s.issued|) && OnlyAbove(t.stacks, w, i, |s.issued|)
  {
    var step, c := Fork(w, lower, higher), |s.issued|;
    var t := Apply(lt, s, step);
    assert OnlyAt(s.queues, w, c) by {
      assert QueueOk(s.issued, s.queues.shared);
      assert forall v | 0 <= v < |s.queues.local| :: QueueOk(s.issued, s.queues.local[v]);
    }
    SubmitOnlyAt(s.queues, w, Job(c, lower), w, c);
    forall v, j | 0 <= v < |t.stacks| && 0 <= j < |t.stacks[v]| ensures t.stacks[v][j].target != ToTask(c) {
      TargetKept(lt, s, step, v, j);
      if j < |s.stacks[v]| { ChildIssued(lt, s, v, j); }
    }
  }

  lemma StepFrameHome<T(!new)>(lt: (T, T) -> bool, s: State<T>, step: Step<T>, w: nat, i: nat)
    requires Inv(lt, s) && Home(s) && Enabled(lt, s, step)
    requires w < |Apply(lt, s, step).stacks| && i < |Apply(lt, s, step).stacks[w]|
    requires HasChild(Apply(lt, s, step).stacks[w][i])
    ensures FrameHome(Apply(lt, s, step), w, i)
  {
    ChildKept(lt, s, step, w, i);
    var c := Apply(lt, s, step).stacks[w][i].phase.child;
    SameStealing(lt, s, step);
    hide Inv, Apply, Enabled, OnlyAt, OnlyAbove;
    if HasChild(s.stacks[w][i]) && s.stacks[w][i].phase.child == c {
      assert FrameHome(s, w, i);
      ChildIssued(lt, s, w, i);
      QueuesHome(lt, s, step, w, c);
      if !s.stealing { StacksHome(lt, s, step, w, i, c); }
    } else {
      ForkedHome(lt, s, w, step.lower, step.higher, i);
    }
  }

  lemma SameStealing<T(!new)>(lt: (T, T) -> bool, s: State<T>, step: Step<T>)
    requires Enabled(lt, s, step)
    ensures Apply(lt, s, step).stealing == s.stealing
  {
    hide Partition;
  }

  lemma {:induction false} RunHome<T(!new)>(lt: (T, T) -> bool, s: State<T>, steps: seq<Step<T>>)
    requires StrictOrder(lt) && Inv(lt, s) && Home(s) && CanRun(lt, s, steps)
    ensures Home(Run(lt, s, steps))
    decreases steps
  {
    if steps != [] {
      var t := Apply(lt, s, steps[0]);
      StepInv(lt, s, steps[0]);
      forall w, i | 0 <= w < |t.stacks| && 0 <= i < |t.stacks[w]| && HasChild(t.stacks[w][i])
        ensures FrameHome(t, w, i)
      {
        StepFrameHome(lt, s, steps[0], w, i);
      }
      RunHome(lt, t, steps[1..]);
    }
  }

  // ----- Main results -----

  /** A job that is queued is in some queue. */
  lemma QueuedSomewhere<T>(s: State<T>, id: nat)
    requires Queued(s, id) > 0
    ensures (exists k :: 0 <= k < |s.queues.shared| && s.queues.shared[k].id == id)
         || (exists v, k :: 0 <= v < |s.queues.local| && 0 <= k < |s.queues.local[v]| && s.queues.local[v][k].id == id)
  {
    if Sum(JobIs<T>(id), s.queues.shared) > 0 {
      var k := SumPositive(JobIs<T>(id), s.queues.shared);
    } else {
      var v := SumPositive(Over(JobIs<T>(id)), s.queues.local);
      var k := SumPositive(JobIs<T>(id), s.queues.local[v]);
    }
  }

  /**
   The child that a waiting top frame waits for is finished, or queued with the same worker, which can take
   from its own queue, or - only with stealing - running under a top frame that started later.
   */
  lemma WaitedForChild<T(!new)>(lt: (T, T) -> bool, n: nat, stealing: bool, steps: seq<Step<T>>, s: State<T>, w: nat)
    requires StrictOrder(lt) && Reached(lt, n, stealing, steps, s)
    requires Busy(s, w) && Top(s.stacks[w]).phase.Wait?
    ensures var c := Top(s.stacks[w]).phase.child;
            || c in s.done
            || (s.queues.CanTake(w, Own) && exists k :: 0 <= k < |s.queues.local[w]| && s.queues.local[w][k].id == c)
            || (stealing && exists v: nat :: Busy(s, v) && Top(s.stacks[w]).stamp < Top(s.stacks[v]).stamp)
  {
    var i := |s.stacks[w]| - 1;
    var c := s.stacks[w][i].phase.child;
    ReachedFacts(lt, n, stealing, steps, s, c);
    InitInv(lt, n, stealing);
    RunHome(lt, Init(n, stealing), steps);
    ChildIssued(lt, s, w, i);
    assert FrameHome(s, w, i);
    hide Inv, Queued, Running;
    if Running(s, c) > 0 {
      var v, j := RunningFrame(s, c);
      v := ChildStartedLater(lt, s, w);
    } else if c !in s.done {
      QueuedSomewhere(s, c);
    }
  }

  /** Without stealing no worker depends on another one: whoever has a frame on its stack can go on by itself. */
  lemma BusyWorkerMoves<T(!new)>(lt: (T, T) -> bool, n: nat, steps: seq<Step<T>>, s: State<T>, w: nat)
    returns (step: Step<T>)
    requires StrictOrder(lt) && Reached(lt, n, false, steps, s) && Busy(s, w)
    ensures Enabled(lt, s, step) && IsWork(step) && step.w == w
  {
    ReachedFacts(lt, n, false, steps, s, 0);
    if Top(s.stacks[w]).phase.Wait? { WaitedForChild(lt, n, false, steps, s, w); }
    step := WorkerMoves(lt, s, w, Own);
  }
}
