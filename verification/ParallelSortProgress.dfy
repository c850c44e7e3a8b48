/**
 Conservation of jobs, the exact amount of work of a sort, and freedom from deadlock under nested helping.
 */
module ParallelSortProgress {
  import opened Sums
  import opened Ordering
  import opened WorkQueues
  import opened ParallelSort
  import opened ParallelSortSafety

  // ----- Weights: every job in a queue and every frame on a stack carries one -----

  ghost function Over<X>(f: X -> int): seq<X> -> int {
    (s: seq<X>) => Sum(f, s)
  }

  ghost function Total<T>(jobs: Job<T> -> int, frames: Frame<T> -> int, s: State<T>): int {
    Sum(jobs, s.queues.shared) + Sum(Over(jobs), s.queues.local) + Sum(Over(frames), s.stacks)
  }

  /** What one step adds to the total: the items it creates minus the items it removes. */
  ghost function Delta<T>(lt: (T, T) -> bool, jobs: Job<T> -> int, frames: Frame<T> -> int, s: State<T>,
                          step: Step<T>): int
    requires Enabled(lt, s, step)
  {
    match step
    case Idle => 0
    case Submit(input) => jobs(Job(|s.issued|, input))
    case Take(w, from) =>
      var job := s.queues.Job(w, from);
      frames(Frame(s.clock, ToTask(job.id), job.input, Enter)) - jobs(job)
    case Empty(w) =>
      var f := Top(s.stacks[w]);
      frames(f.(phase := Return([]))) - frames(f)
    case Fork(w, lower, higher) =>
      var f := Top(s.stacks[w]);
      jobs(Job(|s.issued|, lower)) + frames(f.(phase := Forked(f.input[0], |s.issued|, higher)))
      + frames(Frame(s.clock, ToCaller, higher, Enter)) - frames(f)
    case Inline(w) =>
      var f := Top(s.stacks[w]);
      var g := Top(Below(s.stacks[w]));
      frames(g.(phase := Wait(g.phase.pivot, g.phase.child, f.phase.result))) - frames(g) - frames(f)
    case Publish(w) => -frames(Top(s.stacks[w]))
    case Join(w) =>
      var f := Top(s.stacks[w]);
      frames(f.(phase := Return(s.done[f.phase.child] + [f.phase.pivot] + f.phase.higher))) - frames(f)
  }

  lemma StackReplace<T>(f: Frame<T> -> int, stack: seq<Frame<T>>, x: Frame<T>)
    requires stack != []
    ensures Sum(f, Below(stack)) == Sum(f, stack) - f(Top(stack))
    ensures Sum(f, Below(stack) + [x]) == Sum(f, stack) - f(Top(stack)) + f(x)
  {
    assert stack == Below(stack) + [Top(stack)];
    SumPush(f, Below(stack), Top(stack));
    SumPush(f, Below(stack), x);
  }

  lemma TakeTotal<T>(jobs: Job<T> -> int, q: Queues<Job<T>>, w: nat, from: Source)
    requires q.CanTake(w, from)
    ensures Sum(jobs, q.Take(w, from).shared) + Sum(Over(jobs), q.Take(w, from).local)
         == Sum(jobs, q.shared) + Sum(Over(jobs), q.local) - jobs(q.Job(w, from))
  {
    match from
    case Own =>
      SumPopFirst(jobs, q.local[w]);
      SumUpdate(Over(jobs), q.local, w, q.local[w][1..]);
    case Shared => SumPopFirst(jobs, q.shared);
    case Victim(v) =>
      SumUpdate(Over(jobs), q.local, v, q.local[v][..|q.local[v]| - 1]);
  }

  lemma SubmitTotal<T>(jobs: Job<T> -> int, q: Queues<Job<T>>, me: int, job: Job<T>)
    requires -1 <= me < |q.local|
    ensures Sum(jobs, q.Submit(me, job).shared) + Sum(Over(jobs), q.Submit(me, job).local)
         == Sum(jobs, q.shared) + Sum(Over(jobs), q.local) + jobs(job)
  {
    if me == -1 {
      SumPush(jobs, q.shared, job);
    } else {
      SumPush(jobs, q.local[me], job);
      SumUpdate(Over(jobs), q.local, me, q.local[me] + [job]);
    }
  }

  lemma TakeStepTotal<T>(lt: (T, T) -> bool, jobs: Job<T> -> int, frames: Frame<T> -> int, s: State<T>, w: nat,
                         from: Source)
    requires Enabled(lt, s, Take(w, from))
    ensures Total(jobs, frames, Apply(lt, s, Take(w, from)))
              == Total(jobs, frames, s) + Delta(lt, jobs, frames, s, Take(w, from))
  {
    var t := Apply(lt, s, Take(w, from));
    TakeTotal(jobs, s.queues, w, from);
    SumPush(frames, s.stacks[w], Top(t.stacks[w]));
    SumUpdate(Over(frames), s.stacks, w, t.stacks[w]);
  }

  lemma ForkStepTotal<T>(lt: (T, T) -> bool, jobs: Job<T> -> int, frames: Frame<T> -> int, s: State<T>, w: nat,
                         lower: seq<T>, higher: seq<T>)
    requires Enabled(lt, s, Fork(w, lower, higher))
    ensures Total(jobs, frames, Apply(lt, s, Fork(w, lower, higher)))
         == Total(jobs, frames, s) + Delta(lt, jobs, frames, s, Fork(w, lower, higher))
  {
    var t := Apply(lt, s, Fork(w, lower, higher));
    SubmitTotal(jobs, s.queues, w, Job(|s.issued|, lower));
    var forked := Top(Below(t.stacks[w]));
    StackReplace(frames, s.stacks[w], forked);
    SumPush(frames, Below(s.stacks[w]) + [forked], Top(t.stacks[w]));
    SumUpdate(Over(frames), s.stacks, w, t.stacks[w]);
  }

  lemma InlineStepTotal<T>(lt: (T, T) -> bool, jobs: Job<T> -> int, frames: Frame<T> -> int, s: State<T>, w: nat)
    requires Enabled(lt, s, Inline(w))
    ensures Total(jobs, frames, Apply(lt, s, Inline(w)))
              == Total(jobs, frames, s) + Delta(lt, jobs, frames, s, Inline(w))
  {
    var t := Apply(lt, s, Inline(w));
    StackReplace(frames, s.stacks[w], Top(s.stacks[w]));
    StackReplace(frames, Below(s.stacks[w]), Top(t.stacks[w]));
    SumUpdate(Over(frames), s.stacks, w, t.stacks[w]);
  }

  lemma StepTotal<T>(lt: (T, T) -> bool, jobs: Job<T> -> int, frames: Frame<T> -> int, s: State<T>, step: Step<T>)
    requires Enabled(lt, s, step)
    ensures Total(jobs, frames, Apply(lt, s, step)) == Total(jobs, frames, s) + Delta(lt, jobs, frames, s, step)
  {
    match step
    case Idle =>
    case Submit(input) => SubmitTotal(jobs, s.queues, -1, Job(|s.issued|, input));
    case Take(w, from) => TakeStepTotal(lt, jobs, frames, s, w, from);
    case Fork(w, lower, higher) => ForkStepTotal(lt, jobs, frames, s, w, lower, higher);
    case Inline(w) => InlineStepTotal(lt, jobs, frames, s, w);
    case Empty(w) =>
      StackReplace(frames, s.stacks[w], Top(Apply(lt, s, step).stacks[w]));
      SumUpdate(Over(frames), s.stacks, w, Apply(lt, s, step).stacks[w]);
    case Publish(w) =>
      StackReplace(frames, s.stacks[w], Top(s.stacks[w]));
      SumUpdate(Over(frames), s.stacks, w, Apply(lt, s, step).stacks[w]);
    case Join(w) =>
      StackReplace(frames, s.stacks[w], Top(Apply(lt, s, step).stacks[w]));
      SumUpdate(Over(frames), s.stacks, w, Apply(lt, s, step).stacks[w]);
  }

  // ----- Work: every work step, on every schedule, uses up exactly one unit -----

  ghost function JobWork<T>(): Job<T> -> int {
    (j: Job<T>) => 6 * |j.input| + 3
  }

  ghost function FrameWork<T>(): Frame<T> -> int {
    (f: Frame<T>) => if f.phase.Enter? then 6 * |f.input| + 2 else if f.phase.Return? then 1 else 2
  }

  /** The number of work steps still to be made. */
  ghost function Work<T>(s: State<T>): int {
    Total(JobWork(), FrameWork(), s)
  }

  lemma StepWork<T(!new)>(lt: (T, T) -> bool, s: State<T>, step: Step<T>)
    requires Enabled(lt, s, step)
    ensures Work(Apply(lt, s, step)) == Work(s)
      + (if step.Submit? then 6 * |step.input| + 3 else if IsWork(step) then -1 else 0)
  {
    StepTotal(lt, JobWork(), FrameWork(), s, step);
    if step.Fork? {
      PermutationMembers(step.lower + step.higher, Top(s.stacks[step.w]).input[1..]);
    }
  }

  ghost function WorkSteps<T>(steps: seq<Step<T>>): nat {
    if steps == [] then 0 else (if IsWork(steps[0]) then 1 else 0) + WorkSteps(steps[1..])
  }

  /** The price of all requests of a schedule: a list of n elements costs 6n + 3 steps. */
  ghost function Requested<T>(steps: seq<Step<T>>): nat {
    if steps == [] then 0
    else (if steps[0].Submit? then 6 * |steps[0].input| + 3 else 0) + Requested(steps[1..])
  }

  lemma {:induction false} RunWork<T(!new)>(lt: (T, T) -> bool, s: State<T>, steps: seq<Step<T>>)
    requires CanRun(lt, s, steps)
    ensures Work(Run(lt, s, steps)) == Work(s) + Requested(steps) - WorkSteps(steps)
    decreases steps
  {
    if steps != [] {
      StepWork(lt, s, steps[0]);
      RunWork(lt, Apply(lt, s, steps[0]), steps[1..]);
    }
  }

  lemma WorkNonNegative<T>(s: State<T>)
    ensures Work(s) >= 0
    ensures Work(s) == 0 ==> s.queues.shared == []
    ensures Work(s) == 0 ==> forall w | 0 <= w < |s.queues.local| :: s.queues.local[w] == []
    ensures Work(s) == 0 ==> forall w | 0 <= w < |s.stacks| :: s.stacks[w] == []
  {
    SumNonNegative(JobWork<T>(), s.queues.shared);
    forall w | 0 <= w < |s.queues.local|
      ensures Sum(JobWork<T>(), s.queues.local[w]) >= if s.queues.local[w] == [] then 0 else 1
    {
      SumNonNegative(JobWork<T>(), s.queues.local[w]);
      if s.queues.local[w] != [] { assert JobWork<T>()(s.queues.local[w][0]) >= 3; }
    }
    forall w | 0 <= w < |s.stacks| ensures Sum(FrameWork<T>(), s.stacks[w]) >= if s.stacks[w] == [] then 0 else 1 {
      SumNonNegative(FrameWork<T>(), s.stacks[w]);
      if s.stacks[w] != [] { assert FrameWork<T>()(s.stacks[w][0]) >= 1; }
    }
    SumNonNegative(Over(JobWork<T>()), s.queues.local);
    SumNonNegative(Over(FrameWork<T>()), s.stacks);
    if s.queues.shared != [] { assert JobWork<T>()(s.queues.shared[0]) >= 3; }
    forall w | 0 <= w < |s.queues.local|
      ensures Over(JobWork<T>())(s.queues.local[w]) == Sum(JobWork<T>(), s.queues.local[w]) {}
    forall w | 0 <= w < |s.stacks| ensures Over(FrameWork<T>())(s.stacks[w]) == Sum(FrameWork<T>(), s.stacks[w]) {}
  }

  // ----- Conservation: every issued job is in exactly one place -----

  ghost function JobIs<T>(id: nat): Job<T> -> int {
    (j: Job<T>) => if j.id == id then 1 else 0
  }

  ghost function FrameIs<T>(id: nat): Frame<T> -> int {
    (f: Frame<T>) => if f.target == ToTask(id) then 1 else 0
  }

  ghost function EventIs(id: nat): TakeEvent -> int {
    (e: TakeEvent) => if e.id == id then 1 else 0
  }

  /** Copies of job `id` in the queues. */
  ghost function Queued<T>(s: State<T>, id: nat): int {
    Sum(JobIs(id), s.queues.shared) + Sum(Over(JobIs<T>(id)), s.queues.local)
  }

  /** Activations of job `id` on the stacks. */
  ghost function Running<T>(s: State<T>, id: nat): int {
    Sum(Over(FrameIs<T>(id)), s.stacks)
  }

  ghost function Finished<T>(s: State<T>, id: nat): int {
    if id in s.done then 1 else 0
  }

  ghost function Started<T>(s: State<T>, id: nat): int {
    Sum(EventIs(id), s.started)
  }

  /** An issued job is queued, running or finished, exactly once; it was started once unless still queued. */
  ghost predicate Conserved<T>(s: State<T>, id: nat) {
    && Queued(s, id) + Running(s, id) + Finished(s, id) == (if id < |s.issued| then 1 else 0)
    && Started(s, id) == Running(s, id) + Finished(s, id)
  }

  lemma CountsNonNegative<T>(s: State<T>, id: nat)
    ensures Queued(s, id) >= 0 && Running(s, id) >= 0
    ensures forall w, i | 0 <= w < |s.stacks| && 0 <= i < |s.stacks[w]| ::
              s.stacks[w][i].target == ToTask(id) ==> Running(s, id) > 0
    ensures forall i | 0 <= i < |s.queues.shared| :: s.queues.shared[i].id == id ==> Queued(s, id) > 0
    ensures forall w, i | 0 <= w < |s.queues.local| && 0 <= i < |s.queues.local[w]| ::
              s.queues.local[w][i].id == id ==> Queued(s, id) > 0
  {
    SumNonNegative(JobIs<T>(id), s.queues.shared);
    forall w | 0 <= w < |s.queues.local|
      ensures Over(JobIs<T>(id))(s.queues.local[w]) >= 0
      ensures forall i | 0 <= i < |s.queues.local[w]| ::
                JobIs<T>(id)(s.queues.local[w][i]) <= Over(JobIs<T>(id))(s.queues.local[w])
    {
      SumNonNegative(JobIs<T>(id), s.queues.local[w]);
    }
    forall w | 0 <= w < |s.stacks|
      ensures Over(FrameIs<T>(id))(s.stacks[w]) >= 0
      ensures forall i | 0 <= i < |s.stacks[w]| :: FrameIs<T>(id)(s.stacks[w][i]) <= Over(FrameIs<T>(id))(s.stacks[w])
    {
      SumNonNegative(FrameIs<T>(id), s.stacks[w]);
    }
    SumNonNegative(Over(JobIs<T>(id)), s.queues.local);
    SumNonNegative(Over(FrameIs<T>(id)), s.stacks);
    forall w, i | 0 <= w < |s.stacks| && 0 <= i < |s.stacks[w]| && s.stacks[w][i].target == ToTask(id)
      ensures Running(s, id) > 0
    {
      assert FrameIs<T>(id)(s.stacks[w][i]) == 1;
      assert Over(FrameIs<T>(id))(s.stacks[w]) >= 1;
    }
    forall i | 0 <= i < |s.queues.shared| && s.queues.shared[i].id == id ensures Queued(s, id) > 0 {
      assert JobIs<T>(id)(s.queues.shared[i]) == 1;
    }
    forall w, i | 0 <= w < |s.queues.local| && 0 <= i < |s.queues.local[w]| && s.queues.local[w][i].id == id
      ensures Queued(s, id) > 0
    {
      assert JobIs<T>(id)(s.queues.local[w][i]) == 1;
      assert Over(JobIs<T>(id))(s.queues.local[w]) >= 1;
    }
  }

  lemma InitConserved<T>(n: nat, stealing: bool, id: nat)
    ensures Conserved(Init<T>(n, stealing), id)
  {
    var s := Init<T>(n, stealing);
    SumZeros(Over(JobIs<T>(id)), s.queues.local);
    SumZeros(Over(FrameIs<T>(id)), s.stacks);
  }

  ghost function Nothing<X>(): X -> int {
    (x: X) => 0
  }

  lemma NoWeight<X>(s: seq<seq<X>>, q: seq<X>)
    ensures Sum(Nothing<X>(), q) == 0 && Sum(Over(Nothing<X>()), s) == 0
  {
    SumZeros(Nothing<X>(), q);
    forall i | 0 <= i < |s| ensures Over(Nothing<X>())(s[i]) == 0 { SumZeros(Nothing<X>(), s[i]); }
    SumZeros(Over(Nothing<X>()), s);
  }

  lemma QueuedStep<T(!new)>(lt: (T, T) -> bool, s: State<T>, step: Step<T>, id: nat)
    requires Enabled(lt, s, step)
    ensures Queued(Apply(lt, s, step), id) == Queued(s, id) +
      (if (step.Submit? || step.Fork?) && id == |s.issued| then 1
       else if step.Take? && s.queues.Job(step.w, step.from).id == id then -1 else 0)
  {
    StepTotal(lt, JobIs(id), Nothing(), s, step);
    NoWeight(s.stacks, []);
    NoWeight(Apply(lt, s, step).stacks, []);
  }

  lemma RunningStep<T(!new)>(lt: (T, T) -> bool, s: State<T>, step: Step<T>, id: nat)
    requires Enabled(lt, s, step)
    ensures Running(Apply(lt, s, step), id) == Running(s, id) +
      (if step.Take? && s.queues.Job(step.w, step.from).id == id then 1
       else if step.Publish? && Top(s.stacks[step.w]).target == ToTask(id) then -1 else 0)
  {
    StepTotal(lt, Nothing(), FrameIs(id), s, step);
    NoWeight(s.queues.local, s.queues.shared);
    NoWeight(Apply(lt, s, step).queues.local, Apply(lt, s, step).queues.shared);
  }

  /** What a step does to the table of jobs, to the results and to the log of takes. */
  lemma StepLedger<T(!new)>(lt: (T, T) -> bool, s: State<T>, step: Step<T>, id: nat)
    requires Inv(lt, s) && Enabled(lt, s, step)
    ensures |Apply(lt, s, step).issued| == |s.issued| + if step.Submit? || step.Fork? then 1 else 0
    ensures id in Apply(lt, s, step).done <==>
              id in s.done || (step.Publish? && Top(s.stacks[step.w]).target == ToTask(id))
    ensures Started(Apply(lt, s, step), id) ==
      Started(s, id) + if step.Take? && s.queues.Job(step.w, step.from).id == id then 1 else 0
    ensures id in s.done ==> id < |s.issued|
  {
    hide Queues.Take, StackOk, QueueOk;
    if step.Take? {
      SumPush(EventIs(id), s.started, TakeEvent(s.queues.Job(step.w, step.from).id, QueueOf(step.w, step.from)));
    }
  }

  lemma StepConserved<T(!new)>(lt: (T, T) -> bool, s: State<T>, step: Step<T>, id: nat)
    requires Inv(lt, s) && Enabled(lt, s, step) && Conserved(s, id)
    ensures Conserved(Apply(lt, s, step), id)
  {
    StepPlaced(lt, s, step, id);
    hide Inv, Apply, Queued, Running, Started, Partition;
    StepLedger(lt, s, step, id);
    RunningStep(lt, s, step, id);
    if step.Publish? && Top(s.stacks[step.w]).target == ToTask(id) { PublishFinishes(lt, s, step, id); }
  }

  lemma StepPlaced<T(!new)>(lt: (T, T) -> bool, s: State<T>, step: Step<T>, id: nat)
    requires Inv(lt, s) && Enabled(lt, s, step) && Conserved(s, id)
    ensures var t := Apply(lt, s, step);
            Queued(t, id) + Running(t, id) + Finished(t, id) == if id < |t.issued| then 1 else 0
  {
    if step.Publish? && Top(s.stacks[step.w]).target == ToTask(id) { PublishFinishes(lt, s, step, id); }
    hide Inv, Apply, Queued, Running, Started, Partition;
    QueuedStep(lt, s, step, id);
    RunningStep(lt, s, step, id);
    CountsNonNegative(s, id);
    StepLedger(lt, s, step, id);
  }

  /** A job that publishes was not finished before. */
  lemma PublishFinishes<T(!new)>(lt: (T, T) -> bool, s: State<T>, step: Step<T>, id: nat)
    requires Inv(lt, s) && Enabled(lt, s, step) && Conserved(s, id)
    requires step.Publish? && Top(s.stacks[step.w]).target == ToTask(id)
    ensures id !in s.done && Running(s, id) > 0
  {
    PublishRuns(lt, s, step, id);
    CountsNonNegative(s, id);
  }

  /** A job that publishes was running. */
  lemma PublishRuns<T(!new)>(lt: (T, T) -> bool, s: State<T>, step: Step<T>, id: nat)
    requires Enabled(lt, s, step) && step.Publish? && Top(s.stacks[step.w]).target == ToTask(id)
    ensures Running(s, id) > 0
  {
    CountsNonNegative(s, id);
    var stack := s.stacks[step.w];
    assert stack[|stack| - 1].target == ToTask(id);
  }

  lemma {:induction false} RunConserved<T(!new)>(lt: (T, T) -> bool, s: State<T>, steps: seq<Step<T>>, id: nat)
    requires StrictOrder(lt) && Inv(lt, s) && Conserved(s, id) && CanRun(lt, s, steps)
    ensures Conserved(Run(lt, s, steps), id)
    decreases steps
  {
    if steps != [] {
      StepInv(lt, s, steps[0]);
      StepConserved(lt, s, steps[0], id);
      RunConserved(lt, Apply(lt, s, steps[0]), steps[1..], id);
    }
  }
}
