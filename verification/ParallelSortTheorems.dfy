/** What the parallel quicksort guarantees on every schedule of any number of workers. */
module ParallelSortTheorems {
  import opened Sums
  import opened Ordering
  import opened WorkQueues
  import opened ParallelSort
  import opened ParallelSortSafety
  import opened ParallelSortProgress

  /** Reachable from n empty workers by any interleaving of submissions and steps. */
  ghost predicate Reached<T(!new)>(lt: (T, T) -> bool, n: nat, stealing: bool, steps: seq<Step<T>>, s: State<T>) {
    CanRun(lt, Init(n, stealing), steps) && s == Run(lt, Init(n, stealing), steps)
  }

  lemma {:induction false} RunKeepsWorkers<T(!new)>(lt: (T, T) -> bool, s: State<T>, steps: seq<Step<T>>)
    requires CanRun(lt, s, steps)
    ensures |Run(lt, s, steps).stacks| == |s.stacks| && Run(lt, s, steps).stealing == s.stealing
    decreases steps
  {
    if steps != [] { RunKeepsWorkers(lt, Apply(lt, s, steps[0]), steps[1..]); }
  }

  lemma ReachedFacts<T(!new)>(lt: (T, T) -> bool, n: nat, stealing: bool, steps: seq<Step<T>>, s: State<T>, id: nat)
    requires StrictOrder(lt) && Reached(lt, n, stealing, steps, s)
    ensures Inv(lt, s) && Conserved(s, id) && |s.stacks| == n && s.stealing == stealing
  {
    InitInv(lt, n, stealing);
    InitConserved<T>(n, stealing, id);
    RunInv(lt, Init(n, stealing), steps);
    RunConserved(lt, Init(n, stealing), steps, id);
    RunKeepsWorkers(lt, Init(n, stealing), steps);
  }

  /** Each job starts at most once, with owner pops and steals going on at the same time. */
  lemma EachJobStartsAtMostOnce<T(!new)>(lt: (T, T) -> bool, n: nat, stealing: bool, steps: seq<Step<T>>, s: State<T>)
    requires StrictOrder(lt) && Reached(lt, n, stealing, steps, s)
    ensures forall i, j | 0 <= i < j < |s.started| :: s.started[i].id != s.started[j].id
  {
    forall i, j | 0 <= i < j < |s.started| ensures s.started[i].id != s.started[j].id {
      var id := s.started[i].id;
      ReachedFacts(lt, n, stealing, steps, s, id);
      CountsNonNegative(s, id);
      var log := s.started;
      assert log == log[..j] + log[j..];
      SumAppend(EventIs(id), log[..j], log[j..]);
      SumNonNegative(EventIs(id), log[..j]);
      SumNonNegative(EventIs(id), log[j..]);
      assert EventIs(id)(log[..j][i]) == 1;
      assert log[j..][0] == log[j];
      assert EventIs(id)(log[j..][0]) <= Sum(EventIs(id), log[j..]);
    }
  }

  // ----- Freedom from deadlock -----

  /** A worker with a frame on its stack whose top is the latest to have started. */
  lemma {:induction false} LatestTop<T>(stacks: seq<seq<Frame<T>>>) returns (w: nat)
    requires exists v :: 0 <= v < |stacks| && stacks[v] != []
    ensures w < |stacks| && stacks[w] != []
    ensures forall v | 0 <= v < |stacks| && stacks[v] != [] :: Top(stacks[v]).stamp <= Top(stacks[w]).stamp
  {
    var last := |stacks| - 1;
    if exists v :: 0 <= v < last && stacks[v] != [] {
      assert forall v | 0 <= v < last :: stacks[..last][v] == stacks[v];
      var v :| 0 <= v < last && stacks[v] != [];
      assert stacks[..last][v] != [];
      w := LatestTop(stacks[..last]);
      if stacks[last] != [] && Top(stacks[last]).stamp > Top(stacks[w]).stamp { w := last; }
    } else {
      w := last;
    }
  }

  /** A job that is running has an activation on some stack. */
  lemma RunningFrame<T>(s: State<T>, id: nat) returns (w: nat, i: nat)
    requires Running(s, id) > 0
    ensures w < |s.stacks| && i < |s.stacks[w]| && s.stacks[w][i].target == ToTask(id)
  {
    w := SumPositive(Over(FrameIs<T>(id)), s.stacks);
    i := SumPositive(FrameIs<T>(id), s.stacks[w]);
  }

  /** A worker whose top frame is not stuck waiting can move, and so can one that has something to take. */
  lemma WorkerMoves<T(!new)>(lt: (T, T) -> bool, s: State<T>, w: nat, from: Source) returns (step: Step<T>)
    requires Inv(lt, s) && w < |s.stacks|
    requires MayPoll(s.stacks[w]) ==>
               (s.queues.CanTake(w, from) && !from.Victim?) || (Busy(s, w) && Top(s.stacks[w]).phase.child in s.done)
    ensures Enabled(lt, s, step) && IsWork(step) && step.w == w
  {
    var stack := s.stacks[w];
    assert StackOk(lt, s.issued, s.clock, stack);
    if MayPoll(stack) {
      step := if s.queues.CanTake(w, from) && !from.Victim? then Take(w, from) else Join(w);
    } else {
      var f := Top(stack);
      if f.phase.Enter? {
        if f.input == [] {
          step := Empty(w);
        } else {
          var lower, higher := SomePartition(lt, f.input[0], f.input[1..]);
          step := Fork(w, lower, higher);
        }
      } else if f.target.ToTask? {
        step := Publish(w);
      } else {
        assert Linked(stack[|stack| - 2], stack[|stack| - 1]);
        assert Top(Below(stack)) == stack[|stack| - 2];
        step := Inline(w);
      }
    }
  }

  lemma PartitionLower<T>(lt: (T, T) -> bool, pivot: T, x: T, input: seq<T>, lower: seq<T>, higher: seq<T>)
    requires Partition(lt, pivot, input, lower, higher) && lt(x, pivot)
    ensures Partition(lt, pivot, [x] + input, [x] + lower, higher)
  {
    assert ([x] + lower) + higher == [x] + (lower + higher);
    assert multiset([x] + (lower + higher)) == multiset{x} + multiset(lower + higher);
    assert multiset([x] + input) == multiset{x} + multiset(input);
  }

  lemma PartitionHigher<T>(lt: (T, T) -> bool, pivot: T, x: T, input: seq<T>, lower: seq<T>, higher: seq<T>)
    requires Partition(lt, pivot, input, lower, higher) && !lt(x, pivot)
    ensures Partition(lt, pivot, [x] + input, lower, [x] + higher)
  {
    assert multiset(lower + ([x] + higher)) == multiset{x} + multiset(lower + higher);
    assert multiset([x] + input) == multiset{x} + multiset(input);
  }

  lemma {:induction false} SomePartition<T(!new)>(lt: (T, T) -> bool, pivot: T, input: seq<T>)
      returns (lower: seq<T>, higher: seq<T>)
    ensures Partition(lt, pivot, input, lower, higher)
  {
    if input == [] {
      lower, higher := [], [];
    } else {
      hide Partition;
      lower, higher := SomePartition(lt, pivot, input[1..]);
      var x := input[0];
      assert input == [x] + input[1..];
      if lt(x, pivot) {
        PartitionLower(lt, pivot, x, input[1..], lower, higher);
        lower := [x] + lower;
      } else {
        PartitionHigher(lt, pivot, x, input[1..], lower, higher);
        higher := [x] + higher;
      }
    }
  }

  /** The child of a waiting top frame, if it is running, runs under a top frame that started later. */
  lemma ChildStartedLater<T(!new)>(lt: (T, T) -> bool, s: State<T>, w: nat) returns (v: nat)
    requires Inv(lt, s) && Busy(s, w) && Top(s.stacks[w]).phase.Wait?
    requires Running(s, Top(s.stacks[w]).phase.child) > 0
    ensures Busy(s, v) && Top(s.stacks[w]).stamp < Top(s.stacks[v]).stamp
  {
    var f := Top(s.stacks[w]);
    assert StackOk(lt, s.issued, s.clock, s.stacks[w]);
    assert FrameOk(lt, s.issued, s.clock, f);
    var i;
    v, i := RunningFrame(s, f.phase.child);
    assert StackOk(lt, s.issued, s.clock, s.stacks[v]);
    assert FrameOk(lt, s.issued, s.clock, s.stacks[v][i]);
  }

  /**
   No deadlock: as long as an issued job is unfinished, some worker has a step other than polling.
   If all queues are empty and every top frame waits, the latest top frame waits for a job that
   started even later, so that job's own stack has a later top.
   */
  lemma SomeWorkerMoves<T(!new)>(lt: (T, T) -> bool, s: State<T>, id: nat) returns (step: Step<T>)
    requires Inv(lt, s) && |s.stacks| >= 1
    requires forall k: nat :: Conserved(s, k)
    requires id < |s.issued| && id !in s.done
    ensures Enabled(lt, s, step) && IsWork(step)
  {
    if s.queues.shared != [] {
      step := WorkerMoves(lt, s, 0, Shared);
    } else if w: nat :| w < |s.queues.local| && s.queues.local[w] != [] {
      step := WorkerMoves(lt, s, w, Own);
    } else {
      forall k: nat ensures Queued(s, k) == 0 { NothingQueued(s, k); }
      assert Conserved(s, id);
      var v, i := RunningFrame(s, id);
      var w := LatestTop(s.stacks);
      assert StackOk(lt, s.issued, s.clock, s.stacks[w]);
      var f := Top(s.stacks[w]);
      assert FrameOk(lt, s.issued, s.clock, f);
      if f.phase.Wait? && f.phase.child !in s.done {
        assert Conserved(s, f.phase.child);
        v := ChildStartedLater(lt, s, w);
        assert false;
      }
      step := WorkerMoves(lt, s, w, Own);
    }
  }

  lemma NothingQueued<T>(s: State<T>, id: nat)
    requires s.queues.shared == [] && forall w | 0 <= w < |s.queues.local| :: s.queues.local[w] == []
    ensures Queued(s, id) == 0
  {
    SumZeros(Over(JobIs<T>(id)), s.queues.local);
  }

  lemma DeadlockFree<T(!new)>(lt: (T, T) -> bool, n: nat, stealing: bool, steps: seq<Step<T>>, s: State<T>, id: nat)
    returns (step: Step<T>)
    requires StrictOrder(lt) && n >= 1 && Reached(lt, n, stealing, steps, s)
    requires id < |s.issued| && id !in s.done
    ensures Enabled(lt, s, step) && IsWork(step)
  {
    forall k: nat ensures Conserved(s, k) { ReachedFacts(lt, n, stealing, steps, s, k); }
    ReachedFacts(lt, n, stealing, steps, s, id);
    step := SomeWorkerMoves(lt, s, id);
  }

  // ----- Termination and the result -----

  /** Nothing is left to do exactly when every issued job is finished. */
  lemma NoWorkMeansDone<T(!new)>(lt: (T, T) -> bool, n: nat, stealing: bool, steps: seq<Step<T>>, s: State<T>)
    requires StrictOrder(lt) && n >= 1 && Reached(lt, n, stealing, steps, s)
    ensures Work(s) == 0 <==> forall id: nat | id < |s.issued| :: id in s.done
  {
    WorkNonNegative(s);
    if Work(s) == 0 {
      forall id: nat | id < |s.issued| ensures id in s.done {
        ReachedFacts(lt, n, stealing, steps, s, id);
        NothingQueued(s, id);
        if Running(s, id) > 0 {
          var w, i := RunningFrame(s, id);
        }
        CountsNonNegative(s, id);
      }
    } else if forall id: nat | id < |s.issued| :: id in s.done {
      ReachedFacts(lt, n, stealing, steps, s, 0);
      forall id: nat ensures Queued(s, id) == 0 && Running(s, id) == 0 {
        ReachedFacts(lt, n, stealing, steps, s, id);
        CountsNonNegative(s, id);
      }
      NothingAnywhere(lt, s);
    }
  }

  lemma NothingAnywhere<T(!new)>(lt: (T, T) -> bool, s: State<T>)
    requires Inv(lt, s)
    requires forall id: nat :: Queued(s, id) == 0 && Running(s, id) == 0
    ensures Work(s) == 0
  {
    if s.queues.shared != [] { CountsNonNegative(s, s.queues.shared[0].id); }
    forall w | 0 <= w < |s.queues.local| ensures s.queues.local[w] == [] {
      if s.queues.local[w] != [] { CountsNonNegative(s, s.queues.local[w][0].id); }
    }
    forall w | 0 <= w < |s.stacks| ensures s.stacks[w] == [] {
      if s.stacks[w] != [] {
        assert StackOk(lt, s.issued, s.clock, s.stacks[w]);
        CountsNonNegative(s, s.stacks[w][0].target.id);
      }
    }
    SumZeros(Over(JobWork<T>()), s.queues.local);
    SumZeros(Over(FrameWork<T>()), s.stacks);
  }

  /**
   Sorting terminates on every schedule, after the same number of steps: a schedule whose requests
   have total price p makes at most p work steps, can always go on while it made fewer, and has
   finished every job once it made p.
   */
  lemma WorkIsExact<T(!new)>(lt: (T, T) -> bool, n: nat, stealing: bool, steps: seq<Step<T>>, s: State<T>)
    requires StrictOrder(lt) && n >= 1 && Reached(lt, n, stealing, steps, s)
    ensures WorkSteps(steps) <= Requested(steps)
    ensures WorkSteps(steps) == Requested(steps) <==> forall id: nat | id < |s.issued| :: id in s.done
    ensures WorkSteps(steps) < Requested(steps) ==> exists step :: Enabled(lt, s, step) && IsWork(step)
  {
    RunWork(lt, Init(n, stealing), steps);
    InitWork<T>(n, stealing);
    WorkNonNegative(s);
    NoWorkMeansDone(lt, n, stealing, steps, s);
    if WorkSteps(steps) < Requested(steps) {
      var id: nat :| id < |s.issued| && id !in s.done;
      var step := DeadlockFree(lt, n, stealing, steps, s, id);
    }
  }

  lemma InitWork<T>(n: nat, stealing: bool)
    ensures Work(Init<T>(n, stealing)) == 0
  {
    var s := Init<T>(n, stealing);
    SumZeros(Over(JobWork<T>()), s.queues.local);
    SumZeros(Over(FrameWork<T>()), s.stacks);
  }

  /**
   do_sort, called at any moment: the request becomes the job with the next id, and when the caller sees its
   flag the result is the sorted permutation, for a total order the only one.
   */
  lemma DoSortResult<T(!new)>(lt: (T, T) -> bool, n: nat, stealing: bool, before: seq<Step<T>>, input: seq<T>,
                              after: seq<Step<T>>, s: State<T>, expected: seq<T>)
    requires StrictOrder(lt) && CanRun(lt, Init(n, stealing), before)
    requires Reached(lt, n, stealing, before + ([Submit(input)] + after), s)
    ensures var id := |Run(lt, Init(n, stealing), before).issued|;
            id in s.done ==>
              SortedPermutation(lt, s.done[id], input)
              && (TotalOrder(lt) && SortedPermutation(lt, expected, input) ==> s.done[id] == expected)
  {
    var init := Init(n, stealing);
    var r := Run(lt, init, before);
    var id := |r.issued|;
    if id in s.done {
      EveryScheduleSorts(lt, n, stealing, before + ([Submit(input)] + after), id);
      RunSplit(lt, init, before, [Submit(input)] + after);
      assert ([Submit(input)] + after)[1..] == after;
      var t := Apply(lt, r, Submit(input));
      RunKeepsIssued(lt, t, after);
      assert t.issued[id].input == input;
      if TotalOrder(lt) && SortedPermutation(lt, expected, input) {
        SortedUnique(lt, s.done[id], expected);
      }
    }
  }

  lemma {:induction false} RunSplit<T(!new)>(lt: (T, T) -> bool, s: State<T>, a: seq<Step<T>>, b: seq<Step<T>>)
    requires CanRun(lt, s, a + b)
    ensures CanRun(lt, s, a) && CanRun(lt, Run(lt, s, a), b) && Run(lt, s, a + b) == Run(lt, Run(lt, s, a), b)
    decreases a
  {
    if a == [] {
      assert a + b == b;
    } else {
      assert (a + b)[1..] == a[1..] + b;
      RunSplit(lt, Apply(lt, s, a[0]), a[1..], b);
    }
  }

  lemma {:induction false} RunKeepsIssued<T(!new)>(lt: (T, T) -> bool, s: State<T>, steps: seq<Step<T>>)
    requires CanRun(lt, s, steps)
    ensures s.issued <= Run(lt, s, steps).issued
    decreases steps
  {
    if steps != [] { RunKeepsIssued(lt, Apply(lt, s, steps[0]), steps[1..]); }
  }

  // ----- Queue order -----

  function QueueAt<T>(s: State<T>, q: int): seq<Job<T>> {
    if q == -1 then s.queues.shared else if 0 <= q < |s.queues.local| then s.queues.local[q] else []
  }

  /** With stealing off: what was taken from a queue is older than what is left, and was taken in push order. */
  ghost predicate Fifo<T>(s: State<T>) {
    && !s.stealing
    && (forall i, j | 0 <= i < j < |s.started| ::
          s.started[i].queue == s.started[j].queue ==> s.started[i].id < s.started[j].id)
    && (forall i | 0 <= i < |s.started| :: Older(s, s.started[i]))
  }

  ghost predicate Older<T>(s: State<T>, e: TakeEvent) {
    && e.id < |s.issued|
    && forall k | 0 <= k < |QueueAt(s, e.queue)| :: e.id < QueueAt(s, e.queue)[k].id
  }

  lemma TakeFifo<T(!new)>(lt: (T, T) -> bool, s: State<T>, w: nat, from: Source)
    requires Inv(lt, s) && Enabled(lt, s, Take(w, from)) && Fifo(s)
    ensures Fifo(Apply(lt, s, Take(w, from)))
  {
    var t := Apply(lt, s, Take(w, from));
    var q := QueueOf(w, from);
    assert QueueOk(s.issued, QueueAt(s, q));
    assert QueueAt(t, q) == QueueAt(s, q)[1..];
    var e := TakeEvent(s.queues.Job(w, from).id, q);
    assert e.id == QueueAt(s, q)[0].id;
    assert Older(t, e);
    forall i | 0 <= i < |s.started|
      ensures Older(t, s.started[i]) && (s.started[i].queue == q ==> s.started[i].id < e.id)
    {
      assert Older(s, s.started[i]);
      if s.started[i].queue != q { assert QueueAt(t, s.started[i].queue) == QueueAt(s, s.started[i].queue); }
    }
  }

  /** A step that takes nothing leaves every queue alone or appends the newest job to it. */
  lemma PushFifo<T(!new)>(lt: (T, T) -> bool, s: State<T>, step: Step<T>)
    requires Inv(lt, s) && Enabled(lt, s, step) && Fifo(s) && !step.Take?
    ensures Fifo(Apply(lt, s, step))
  {
    assert |s.queues.local| == |s.stacks|;
    var t := Apply(lt, s, step);
    QuietLog(lt, s, step);
    hide Inv, Apply, Enabled, QueueAt;
    forall i | 0 <= i < |s.started| ensures Older(t, s.started[i]) {
      var e := s.started[i];
      assert Older(s, e);
      PushedQueue(lt, s, step, e.queue);
      OlderStays(e.id, |s.issued|, QueueAt(s, e.queue), QueueAt(t, e.queue));
    }
  }

  lemma QuietLog<T(!new)>(lt: (T, T) -> bool, s: State<T>, step: Step<T>)
    requires Enabled(lt, s, step) && !step.Take?
    ensures Apply(lt, s, step).started == s.started && Apply(lt, s, step).stealing == s.stealing
    ensures |s.issued| <= |Apply(lt, s, step).issued|
  {
  }

  /** The queue is as before, or the job with the given id was appended. */
  ghost predicate Appended<T>(before: seq<Job<T>>, after: seq<Job<T>>, id: nat) {
    after == before || (|after| == |before| + 1 && after[..|before|] == before && after[|before|].id == id)
  }

  lemma PushedQueue<T(!new)>(lt: (T, T) -> bool, s: State<T>, step: Step<T>, q: int)
    requires |s.queues.local| == |s.stacks| && Enabled(lt, s, step) && !step.Take?
    ensures Appended(QueueAt(s, q), QueueAt(Apply(lt, s, step), q), |s.issued|)
  {
  }

  lemma OlderStays<T>(id: nat, newest: nat, before: seq<Job<T>>, after: seq<Job<T>>)
    requires Appended(before, after, newest) && id < newest
    requires forall k | 0 <= k < |before| :: id < before[k].id
    ensures forall k | 0 <= k < |after| :: id < after[k].id
  {
    forall k | 0 <= k < |after| ensures id < after[k].id {
      assert k < |before| ==> after[k] == before[k];
    }
  }

  lemma {:induction false} RunFifo<T(!new)>(lt: (T, T) -> bool, s: State<T>, steps: seq<Step<T>>)
    requires StrictOrder(lt) && Inv(lt, s) && Fifo(s) && CanRun(lt, s, steps)
    ensures Fifo(Run(lt, s, steps))
    decreases steps
  {
    if steps != [] {
      StepInv(lt, s, steps[0]);
      match steps[0] {
      case Take(w, from) => TakeFifo(lt, s, w, from);
      case _ => PushFifo(lt, s, steps[0]);
      }
      RunFifo(lt, Apply(lt, s, steps[0]), steps[1..]);
    }
  }

  /**
   Job ids count submissions: every queue stays in push order, and without stealing each is served first in,
   first out.
   */
  lemma QueuesAreFifo<T(!new)>(lt: (T, T) -> bool, n: nat, stealing: bool, steps: seq<Step<T>>, s: State<T>)
    requires StrictOrder(lt) && Reached(lt, n, stealing, steps, s)
    ensures forall w, i, j | 0 <= w < |s.queues.local| && 0 <= i < j < |s.queues.local[w]| ::
              s.queues.local[w][i].id < s.queues.local[w][j].id
    ensures forall i, j | 0 <= i < j < |s.queues.shared| :: s.queues.shared[i].id < s.queues.shared[j].id
    ensures !stealing ==> forall i, j | 0 <= i < j < |s.started| && s.started[i].queue == s.started[j].queue ::
              s.started[i].id < s.started[j].id
  {
    InitInv(lt, n, stealing);
    RunInv(lt, Init(n, stealing), steps);
    assert forall w | 0 <= w < |s.queues.local| :: QueueOk(s.issued, s.queues.local[w]);
    if !stealing {
      RunFifo(lt, Init(n, stealing), steps);
    }
  }
}
