/**
 The schedules there are: steals, several requests at once, completion from everywhere; the pool's own
 operations as steps; and the result for integers.
 */
module ParallelSortRuns {
  import opened Options
  import opened Ordering
  import opened WorkQueues
  import opened SequentialSort
  import opened ParallelSort
  import opened ParallelSortSafety
  import opened ParallelSortProgress
  import opened ParallelSortTheorems

  // ----- The pool's operations are the steps on its queues -----

  /** run_pending_task of an idle worker or of one that waits: whatever the locks allow is a step. */
  method RunPendingTask<T(!new)>(lt: (T, T) -> bool, pool: ThreadPool<Job<T>>, me: nat,
                                 ownLock: bool, sharedLock: bool, acquired: nat -> bool)
    returns (job: Option<Job<T>>, ghost from: Source)
    requires pool.Valid() && me < |pool.queues|
    modifies pool.shared, pool.queues
    ensures forall s: State<T> |
              && s.queues == old(pool.Contents()) && s.stealing == pool.enableSteal && me < |s.stacks|
              && (s.stacks[me] == [] || s.stacks[me][|s.stacks[me]| - 1].phase.Wait?) ::
              if job.None? then s.queues == pool.Contents()
              else
                && Enabled(lt, s, Take(me, from)) && Apply(lt, s, Take(me, from)).queues == pool.Contents()
                && Apply(lt, s, Take(me, from)).stacks[me]
                     == s.stacks[me] + [Frame(s.clock, ToTask(job.value.id), job.value.input, Enter)]
  {
    job, from := pool.FetchPendingTask(me, ownLock, sharedLock, acquired);
  }

  /** Every step of that kind is what run_pending_task does for some outcome of the locks. */
  method FetchFrom<J>(pool: ThreadPool<J>, me: nat, from: Source) returns (job: Option<J>)
    requires pool.Valid() && me < |pool.queues|
    requires pool.Contents().CanTake(me, from) && (from.Victim? ==> pool.enableSteal)
    modifies pool.shared, pool.queues
    ensures job == Some(old(pool.Contents()).Job(me, from))
    ensures pool.Contents() == old(pool.Contents()).Take(me, from)
  {
    ghost var source;
    var own, global, victim := from.Own?, from.Shared?, if from.Victim? then from.index else me;
    var acquired := v => v == victim && v != me;
    assert from.Victim? ==> acquired(victim);
    job, source := pool.FetchPendingTask(me, own, global, acquired);
  }

  /** submit, of a request from outside and of the lower half from a worker. */
  method SubmitJob<T(!new)>(lt: (T, T) -> bool, pool: ThreadPool<Job<T>>, me: int, job: Job<T>)
    requires pool.Valid() && -1 <= me < |pool.queues| && !pool.stop
    modifies pool.shared, pool.queues
    ensures me == -1 ==> forall s: State<T> | s.queues == old(pool.Contents()) && job.id == |s.issued| ::
              Apply(lt, s, Submit(job.input)).queues == pool.Contents()
    ensures me >= 0 ==> forall s: State<T>, higher |
              s.queues == old(pool.Contents()) && job.id == |s.issued| && Enabled(lt, s, Fork(me, job.input, higher)) ::
              Apply(lt, s, Fork(me, job.input, higher)).queues == pool.Contents()
  {
    var accepted := pool.Submit(me, Some(job));
  }

  /** The parts that std::partition makes of a list can be the parts of a fork, in any order each. */
  lemma ForkAnyOrder<T(!new)>(lt: (T, T) -> bool, s: State<T>, w: nat, lower: seq<T>, higher: seq<T>)
    requires w < |s.stacks| && w < |s.queues.local| && s.stacks[w] != []
    requires var f := s.stacks[w][|s.stacks[w]| - 1];
             && f.phase.Enter? && f.input != []
             && multiset(lower) + multiset(higher) == multiset(f.input[1..])
             && (forall x | x in lower :: lt(x, f.input[0])) && (forall x | x in higher :: !lt(x, f.input[0]))
    ensures Enabled(lt, s, Fork(w, lower, higher))
  {
    assert multiset(lower + higher) == multiset(lower) + multiset(higher);
  }

  /**
   An owner and the shared queue give the job submitted first, a thief gets the one submitted last; the log
   says which.
   */
  lemma OldestOrNewest<T(!new)>(lt: (T, T) -> bool, n: nat, stealing: bool, steps: seq<Step<T>>, s: State<T>,
                                w: nat, from: Source)
    requires StrictOrder(lt) && Reached(lt, n, stealing, steps, s) && Enabled(lt, s, Take(w, from))
    ensures var t := Apply(lt, s, Take(w, from));
            var id := t.stacks[w][|t.stacks[w]| - 1].target.id;
            && (from.Own? ==> forall k | 0 <= k < |s.queues.local[w]| :: id <= s.queues.local[w][k].id)
            && (from.Shared? ==> forall k | 0 <= k < |s.queues.shared| :: id <= s.queues.shared[k].id)
            && (from.Victim? ==>
                  forall k | 0 <= k < |s.queues.local[from.index]| :: s.queues.local[from.index][k].id <= id)
            && t.started == s.started + [TakeEvent(id, match from case Own => w case Shared => -1 case Victim(v) => v)]
  {
    QueuesAreFifo(lt, n, stealing, steps, s);
  }

  // ----- Building schedules -----

  lemma Then<T(!new)>(lt: (T, T) -> bool, n: nat, stealing: bool, steps: seq<Step<T>>, s: State<T>, step: Step<T>)
    returns (more: seq<Step<T>>)
    requires Reached(lt, n, stealing, steps, s) && Enabled(lt, s, step)
    ensures Reached(lt, n, stealing, more, Apply(lt, s, step)) && more == steps + [step]
  {
    more := steps + [step];
    RunThen(lt, Init(n, stealing), steps, step);
  }

  lemma {:induction false} RunThen<T(!new)>(lt: (T, T) -> bool, s: State<T>, steps: seq<Step<T>>, step: Step<T>)
    requires CanRun(lt, s, steps) && Enabled(lt, Run(lt, s, steps), step)
    ensures CanRun(lt, s, steps + [step]) && Run(lt, s, steps + [step]) == Apply(lt, Run(lt, s, steps), step)
    decreases steps
  {
    if steps == [] {
      assert (steps + [step])[1..] == [];
    } else {
      assert (steps + [step])[1..] == steps[1..] + [step];
      RunThen(lt, Apply(lt, s, steps[0]), steps[1..], step);
    }
  }

  // ----- What can happen -----

  /** Any number of requests can be made before a worker looks; they queue up in their order. */
  lemma {:induction false} RequestsQueueUp<T(!new)>(lt: (T, T) -> bool, n: nat, stealing: bool, inputs: seq<seq<T>>)
    returns (steps: seq<Step<T>>, s: State<T>)
    ensures Reached(lt, n, stealing, steps, s) && |s.queues.shared| == |s.issued| == |inputs|
    ensures forall i | 0 <= i < |inputs| :: s.queues.shared[i] == Job(i, inputs[i])
    ensures |s.stacks| == |s.queues.local| == n && s.stealing == stealing
    ensures forall w | 0 <= w < n :: s.stacks[w] == [] && s.queues.local[w] == []
  {
    if inputs == [] {
      steps, s := [], Init(n, stealing);
    } else {
      var last := |inputs| - 1;
      steps, s := RequestsQueueUp(lt, n, stealing, inputs[..last]);
      steps := Then(lt, n, stealing, steps, s, Submit(inputs[last]));
      s := Apply(lt, s, Submit(inputs[last]));
    }
  }

  lemma RequestTaken<T(!new)>(lt: (T, T) -> bool, s: State<T>, a: nat, job: Job<T>)
    requires a < |s.stacks| && s.stacks[a] == [] && s.queues.shared == [job]
    ensures Enabled(lt, s, Take(a, Shared))
    ensures var t := Apply(lt, s, Take(a, Shared));
            && t.stacks == s.stacks[a := [Frame(s.clock, ToTask(job.id), job.input, Enter)]]
            && t.queues.local == s.queues.local && t.stealing == s.stealing
  {
    var f := Frame(s.clock, ToTask(job.id), job.input, Enter);
    assert [] + [f] == [f];
  }

  lemma LowerHalfForked<T(!new)>(lt: (T, T) -> bool, s: State<T>, a: nat, f: Frame<T>, lower: seq<T>, higher: seq<T>)
    requires a < |s.stacks| == |s.queues.local| && s.stacks[a] == [f] && f.phase.Enter? && f.input != []
    requires Partition(lt, f.input[0], f.input[1..], lower, higher)
    ensures Enabled(lt, s, Fork(a, lower, higher))
    ensures var t := Apply(lt, s, Fork(a, lower, higher));
            && |t.stacks| == |s.stacks| && t.stacks[a] != [] && t.stealing == s.stealing
            && t.stacks[a][0].phase == Forked(f.input[0], |s.issued|, higher)
            && (forall w | 0 <= w < |s.stacks| && w != a :: t.stacks[w] == s.stacks[w])
            && t.queues.local == s.queues.local[a := s.queues.local[a] + [Job(|s.issued|, lower)]]
  {
    hide Partition;
  }

  lemma NewestStolen<T(!new)>(lt: (T, T) -> bool, s: State<T>, b: nat, a: nat)
    requires a < |s.queues.local| && b < |s.stacks| && a != b && s.stealing
    requires s.stacks[b] == [] && s.queues.local[a] != []
    ensures Enabled(lt, s, Take(b, Victim(a)))
    ensures var job, t := s.queues.local[a][|s.queues.local[a]| - 1], Apply(lt, s, Take(b, Victim(a)));
            t.stacks == s.stacks[b := [Frame(s.clock, ToTask(job.id), job.input, Enter)]]
  {
    var job := s.queues.local[a][|s.queues.local[a]| - 1];
    var f := Frame(s.clock, ToTask(job.id), job.input, Enter);
    assert [] + [f] == [f];
  }

  /** With stealing, any worker can come to run the child that any other worker forked and still works beside. */
  lemma StealIsReachable<T(!new)>(lt: (T, T) -> bool, n: nat, a: nat, b: nat, input: seq<T>)
    returns (steps: seq<Step<T>>, s: State<T>)
    requires a < n && b < n && a != b && input != []
    ensures Reached(lt, n, true, steps, s) && a < |s.stacks| && b < |s.stacks|
    ensures s.stacks[a] != [] && s.stacks[a][0].phase.Forked?
    ensures s.stacks[b] != [] && s.stacks[b][0].target == ToTask(s.stacks[a][0].phase.child)
  {
    steps, s := RequestsQueueUp(lt, n, true, [input]);
    assert s.queues.shared == [Job(0, input)];
    RequestTaken(lt, s, a, Job(0, input));
    hide Apply, Enabled, Reached, Partition;
    steps := Then(lt, n, true, steps, s, Take(a, Shared));
    s := Apply(lt, s, Take(a, Shared));
    var lower, higher := SomePartition(lt, input[0], input[1..]);
    LowerHalfForked(lt, s, a, s.stacks[a][0], lower, higher);
    steps := Then(lt, n, true, steps, s, Fork(a, lower, higher));
    s := Apply(lt, s, Fork(a, lower, higher));
    NewestStolen(lt, s, b, a);
    steps := Then(lt, n, true, steps, s, Take(b, Victim(a)));
    s := Apply(lt, s, Take(b, Victim(a)));
  }

  /** From every reachable state all jobs can be finished. */
  lemma {:induction false} CanFinish<T(!new)>(lt: (T, T) -> bool, n: nat, stealing: bool,
                                              steps: seq<Step<T>>, s: State<T>)
    returns (more: seq<Step<T>>, t: State<T>)
    requires StrictOrder(lt) && n >= 1 && Reached(lt, n, stealing, steps, s)
    ensures steps <= more && Reached(lt, n, stealing, more, t)
    ensures forall id: nat | id < |t.issued| :: id in t.done
    decreases Work(s)
  {
    WorkNonNegative(s);
    NoWorkMeansDone(lt, n, stealing, steps, s);
    if Work(s) == 0 {
      more, t := steps, s;
    } else {
      var id: nat :| id < |s.issued| && id !in s.done;
      var step := DeadlockFree(lt, n, stealing, steps, s, id);
      var next := Then(lt, n, stealing, steps, s, step);
      StepWork(lt, s, step);
      WorkNonNegative(Apply(lt, s, step));
      more, t := CanFinish(lt, n, stealing, next, Apply(lt, s, step));
    }
  }

  // ----- Integers -----

  predicate IntLess(a: int, b: int) {
    a < b
  }

  /** Whatever a request for a list of integers gives is that list in ascending order, which there is only one of. */
  lemma IntegersAscend(n: nat, stealing: bool, input: seq<int>, after: seq<Step<int>>, s: State<int>)
    requires Reached(IntLess, n, stealing, [Submit(input)] + after, s) && 0 in s.done
    ensures multiset(s.done[0]) == multiset(input)
    ensures forall i, j | 0 <= i < j < |s.done[0]| :: s.done[0][i] <= s.done[0][j]
    ensures forall other: seq<int> |
              multiset(other) == multiset(input) && (forall i, j | 0 <= i < j < |other| :: other[i] <= other[j]) ::
              other == s.done[0]
  {
    var none: seq<Step<int>> := [];
    assert none + ([Submit(input)] + after) == [Submit(input)] + after;
    DoSortResult(IntLess, n, stealing, none, input, after, s, input);
    var result := s.done[0];
    forall i, j | 0 <= i < j < |result| ensures result[i] <= result[j] { assert !IntLess(result[j], result[i]); }
    forall other: seq<int> |
      multiset(other) == multiset(input) && (forall i, j | 0 <= i < j < |other| :: other[i] <= other[j])
      ensures other == result
    {
      DoSortResult(IntLess, n, stealing, none, input, after, s, other);
    }
  }

  /** And some schedule of any number of workers gives it. */
  lemma IntegersGetSorted(n: nat, stealing: bool, input: seq<int>) returns (steps: seq<Step<int>>, s: State<int>)
    requires n >= 1
    ensures Reached(IntLess, n, stealing, steps, s) && 0 in s.done && multiset(s.done[0]) == multiset(input)
    ensures forall i, j | 0 <= i < j < |s.done[0]| :: s.done[0][i] <= s.done[0][j]
  {
    var init, request := Init<int>(n, stealing), Submit(input);
    var first := Then(IntLess, n, stealing, [], init, request);
    var t := Apply(IntLess, init, request);
    steps, s := CanFinish(IntLess, n, stealing, first, t);
    var after := steps[1..];
    assert steps == [request] + after;
    RunKeepsIssued(IntLess, t, after);
    IntegersAscend(n, stealing, input, after, s);
  }
}
