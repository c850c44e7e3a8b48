/** Every schedule of the parallel quicksort sorts: the invariant of the step system and what follows from it. */
module ParallelSortSafety {
  import opened Ordering
  import opened WorkQueues
  import opened ParallelSort

  /** What is known of a frame from its own fields and the table of issued jobs. */
  ghost predicate FrameOk<T(!new)>(lt: (T, T) -> bool, issued: seq<Issue<T>>, clock: nat, f: Frame<T>) {
    && f.stamp < clock
    && (f.target.ToTask? ==>
          f.target.id < |issued| && f.input == issued[f.target.id].input && issued[f.target.id].at <= f.stamp)
    && match f.phase
       case Enter => true
       case Forked(pivot, child, higher) =>
         && ChildOk(issued, f, pivot, child)
         && Partition(lt, pivot, f.input[1..], issued[child].input, higher)
       case Wait(pivot, child, higher) =>
         && ChildOk(issued, f, pivot, child)
         && exists part ::
              Partition(lt, pivot, f.input[1..], issued[child].input, part) && SortedPermutation(lt, higher, part)
       case Return(result) => SortedPermutation(lt, result, f.input)
  }

  /** A frame's child was issued after the frame started. */
  ghost predicate ChildOk<T>(issued: seq<Issue<T>>, f: Frame<T>, pivot: T, child: nat) {
    f.input != [] && pivot == f.input[0] && child < |issued| && f.stamp < issued[child].at
  }

  /** Directly above a forked frame runs its inline call; directly above a waiting frame runs a job it helps with. */
  ghost predicate Linked<T>(f: Frame<T>, g: Frame<T>) {
    match f.phase
    case Forked(_, _, higher) => g.target.ToCaller? && g.input == higher
    case Wait(_, _, _) => g.target.ToTask?
    case _ => false
  }

  ghost predicate StackOk<T(!new)>(lt: (T, T) -> bool, issued: seq<Issue<T>>, clock: nat, stack: seq<Frame<T>>) {
    && (forall i | 0 <= i < |stack| :: FrameOk(lt, issued, clock, stack[i]))
    && (forall i, j | 0 <= i < j < |stack| :: stack[i].stamp < stack[j].stamp)
    && (forall i, j | 0 <= i && j == i + 1 && j < |stack| :: Linked(stack[i], stack[j]))
    && (stack != [] ==> stack[0].target.ToTask? && !Top(stack).phase.Forked?)
  }

  ghost predicate QueueOk<T>(issued: seq<Issue<T>>, q: seq<Job<T>>) {
    && (forall i | 0 <= i < |q| :: q[i].id < |issued| && q[i].input == issued[q[i].id].input)
    && (forall i, j | 0 <= i < j < |q| :: q[i].id < q[j].id)
  }

  ghost predicate IssuedOk<T>(issued: seq<Issue<T>>, clock: nat) {
    forall k | 0 <= k < |issued| :: issued[k].at <= clock
  }

  ghost predicate DoneOk<T(!new)>(lt: (T, T) -> bool, issued: seq<Issue<T>>, done: map<nat, seq<T>>) {
    forall id | id in done :: id < |issued| && SortedPermutation(lt, done[id], issued[id].input)
  }

  ghost predicate Inv<T(!new)>(lt: (T, T) -> bool, s: State<T>) {
    && |s.queues.local| == |s.stacks|
    && IssuedOk(s.issued, s.clock)
    && QueueOk(s.issued, s.queues.shared)
    && (forall w | 0 <= w < |s.queues.local| :: QueueOk(s.issued, s.queues.local[w]))
    && (forall w | 0 <= w < |s.stacks| :: StackOk(lt, s.issued, s.clock, s.stacks[w]))
    && DoneOk(lt, s.issued, s.done)
  }

  lemma InitInv<T(!new)>(lt: (T, T) -> bool, n: nat, stealing: bool)
    ensures Inv(lt, Init<T>(n, stealing))
  {
  }

  /** Knowledge about a stack survives later submissions. */
  lemma StackOkLater<T(!new)>(lt: (T, T) -> bool, issued: seq<Issue<T>>, clock: nat, more: seq<Issue<T>>, later: nat,
                              stack: seq<Frame<T>>)
    requires StackOk(lt, issued, clock, stack) && issued <= more && clock <= later
    ensures StackOk(lt, more, later, stack)
  {
    forall i | 0 <= i < |stack| ensures FrameOk(lt, more, later, stack[i]) {
      assert FrameOk(lt, issued, clock, stack[i]);
    }
  }

  /** The frames below the top stay good on their own, except that the new top may be a forked frame. */
  lemma StackPush<T(!new)>(lt: (T, T) -> bool, issued: seq<Issue<T>>, clock: nat, stack: seq<Frame<T>>, f: Frame<T>)
    requires forall i | 0 <= i < |stack| :: FrameOk(lt, issued, clock, stack[i]) && stack[i].stamp < f.stamp
    requires forall i, j | 0 <= i < j < |stack| :: stack[i].stamp < stack[j].stamp
    requires forall i, j | 0 <= i && j == i + 1 && j < |stack| :: Linked(stack[i], stack[j])
    requires if stack == [] then f.target.ToTask? else stack[0].target.ToTask? && Linked(Top(stack), f)
    requires FrameOk(lt, issued, clock, f) && !f.phase.Forked?
    ensures StackOk(lt, issued, clock, stack + [f])
  {
  }

  /** Only one stack, the clock, the table and the results change; everything else is carried over. */
  lemma InvFrom<T(!new)>(lt: (T, T) -> bool, s: State<T>, t: State<T>, w: nat)
    requires Inv(lt, s) && w < |s.stacks|
    requires s.issued <= t.issued && s.clock <= t.clock && IssuedOk(t.issued, t.clock)
    requires |t.stacks| == |s.stacks| && forall v | 0 <= v < |s.stacks| && v != w :: t.stacks[v] == s.stacks[v]
    requires StackOk(lt, t.issued, t.clock, t.stacks[w])
    requires |t.queues.local| == |s.queues.local| && QueueOk(t.issued, t.queues.shared)
    requires forall v | 0 <= v < |t.queues.local| :: QueueOk(t.issued, t.queues.local[v])
    requires DoneOk(lt, t.issued, t.done)
    ensures Inv(lt, t)
  {
    forall v | 0 <= v < |t.stacks| ensures StackOk(lt, t.issued, t.clock, t.stacks[v]) {
      if v != w { StackOkLater(lt, s.issued, s.clock, t.issued, t.clock, s.stacks[v]); }
    }
  }

  lemma SubmitInv<T(!new)>(lt: (T, T) -> bool, s: State<T>, input: seq<T>)
    requires Inv(lt, s)
    ensures Inv(lt, Apply(lt, s, Submit(input)))
  {
    var t := Apply(lt, s, Submit(input));
    forall v | 0 <= v < |t.stacks| ensures StackOk(lt, t.issued, t.clock, t.stacks[v]) {
      StackOkLater(lt, s.issued, s.clock, t.issued, t.clock, s.stacks[v]);
    }
    forall v | 0 <= v < |t.queues.local| ensures QueueOk(t.issued, t.queues.local[v]) {
      assert QueueOk(s.issued, s.queues.local[v]);
    }
  }

  /** A worker that polls puts the frame of the job it took on its stack. */
  lemma TakeStack<T(!new)>(lt: (T, T) -> bool, issued: seq<Issue<T>>, clock: nat, stack: seq<Frame<T>>, job: Job<T>)
    requires StackOk(lt, issued, clock, stack) && MayPoll(stack) && IssuedOk(issued, clock)
    requires job.id < |issued| && job.input == issued[job.id].input
    ensures StackOk(lt, issued, clock + 1, stack + [Frame(clock, ToTask(job.id), job.input, Enter)])
  {
    StackOkLater(lt, issued, clock, issued, clock + 1, stack);
    assert forall i | 0 <= i < |stack| :: FrameOk(lt, issued, clock, stack[i]);
    StackPush(lt, issued, clock + 1, stack, Frame(clock, ToTask(job.id), job.input, Enter));
  }

  lemma TakeQueues<T>(issued: seq<Issue<T>>, q: Queues<Job<T>>, w: nat, from: Source)
    requires q.CanTake(w, from) && QueueOk(issued, q.shared)
    requires forall v | 0 <= v < |q.local| :: QueueOk(issued, q.local[v])
    ensures var job := q.Job(w, from); job.id < |issued| && job.input == issued[job.id].input
    ensures var r := q.Take(w, from);
            |r.local| == |q.local| && QueueOk(issued, r.shared)
            && forall v | 0 <= v < |r.local| :: QueueOk(issued, r.local[v])
  {
    match from
    case Own => assert QueueOk(issued, q.local[w]);
    case Shared =>
    case Victim(v) => assert QueueOk(issued, q.local[v]);
  }

  lemma TakeInv<T(!new)>(lt: (T, T) -> bool, s: State<T>, w: nat, from: Source)
    requires Inv(lt, s) && Enabled(lt, s, Take(w, from))
    ensures Inv(lt, Apply(lt, s, Take(w, from)))
  {
    hide StackOk, QueueOk, DoneOk;
    TakeQueues(s.issued, s.queues, w, from);
    TakeStack(lt, s.issued, s.clock, s.stacks[w], s.queues.Job(w, from));
    InvFrom(lt, s, Apply(lt, s, Take(w, from)), w);
  }

  /** The forked frame and the call above it, on the stack they replace. */
  lemma ForkStack<T(!new)>(lt: (T, T) -> bool, issued: seq<Issue<T>>, clock: nat, stack: seq<Frame<T>>,
                           lower: seq<T>, higher: seq<T>)
    requires stack != [] && StackOk(lt, issued, clock, stack) && Top(stack).phase.Enter? && Top(stack).input != []
    requires Partition(lt, Top(stack).input[0], Top(stack).input[1..], lower, higher)
    ensures var forked := Top(stack).(phase := Forked(Top(stack).input[0], |issued|, higher));
            StackOk(lt, issued + [Issue(lower, clock)], clock + 1,
                    Below(stack) + [forked] + [Frame(clock, ToCaller, higher, Enter)])
  {
    var more := issued + [Issue(lower, clock)];
    StackOkLater(lt, issued, clock, more, clock + 1, stack);
    assert FrameOk(lt, issued, clock, Top(stack));
    var forked := Top(stack).(phase := Forked(Top(stack).input[0], |issued|, higher));
    assert FrameOk(lt, more, clock + 1, forked);
    var below := Below(stack) + [forked];
    forall i, j | 0 <= i && j == i + 1 && j < |below| ensures Linked(below[i], below[j]) {
      assert Linked(stack[i], stack[j]);
    }
    forall i | 0 <= i < |below| ensures FrameOk(lt, more, clock + 1, below[i]) && below[i].stamp < clock {
      if i < |stack| - 1 {
        assert FrameOk(lt, issued, clock, stack[i]);
        assert FrameOk(lt, more, clock + 1, stack[i]);
      }
    }
    StackPush(lt, more, clock + 1, below, Frame(clock, ToCaller, higher, Enter));
  }

  lemma ForkInv<T(!new)>(lt: (T, T) -> bool, s: State<T>, w: nat, lower: seq<T>, higher: seq<T>)
    requires Inv(lt, s) && Enabled(lt, s, Fork(w, lower, higher))
    ensures Inv(lt, Apply(lt, s, Fork(w, lower, higher)))
  {
    hide StackOk, Partition;
    var t := Apply(lt, s, Fork(w, lower, higher));
    ForkStack(lt, s.issued, s.clock, s.stacks[w], lower, higher);
    forall v | 0 <= v < |t.queues.local| ensures QueueOk(t.issued, t.queues.local[v]) {
      assert QueueOk(s.issued, s.queues.local[v]);
    }
    InvFrom(lt, s, t, w);
  }

  /** Empty and Join only finish the top frame. */
  lemma FinishTopInv<T(!new)>(lt: (T, T) -> bool, s: State<T>, w: nat, result: seq<T>, t: State<T>)
    requires Inv(lt, s) && Busy(s, w)
    requires SortedPermutation(lt, result, Top(s.stacks[w]).input)
    requires t == s.(stacks := s.stacks[w := Below(s.stacks[w]) + [Top(s.stacks[w]).(phase := Return(result))]])
    ensures Inv(lt, t)
  {
    var stack := s.stacks[w];
    assert StackOk(lt, s.issued, s.clock, stack);
    assert FrameOk(lt, s.issued, s.clock, Top(stack));
    StackPush(lt, s.issued, s.clock, Below(stack), Top(t.stacks[w]));
    InvFrom(lt, s, t, w);
  }

  lemma JoinInv<T(!new)>(lt: (T, T) -> bool, s: State<T>, w: nat)
    requires StrictOrder(lt) && Inv(lt, s) && Enabled(lt, s, Join(w))
    ensures Inv(lt, Apply(lt, s, Join(w)))
  {
    var f := Top(s.stacks[w]);
    assert StackOk(lt, s.issued, s.clock, s.stacks[w]);
    assert FrameOk(lt, s.issued, s.clock, f);
    var Wait(pivot, child, high) := f.phase;
    var part :| Partition(lt, pivot, f.input[1..], s.issued[child].input, part) && SortedPermutation(lt, high, part);
    SortedJoin(lt, pivot, f.input[1..], s.issued[child].input, part, s.done[child], high);
    assert [pivot] + f.input[1..] == f.input;
    FinishTopInv(lt, s, w, s.done[child] + [pivot] + high, Apply(lt, s, Join(w)));
  }

  /** The frame below an inline call takes its result and waits. */
  lemma InlineStack<T(!new)>(lt: (T, T) -> bool, issued: seq<Issue<T>>, clock: nat, stack: seq<Frame<T>>)
    requires StackOk(lt, issued, clock, stack) && |stack| >= 2 && Top(stack).phase.Return?
    requires Top(Below(stack)).phase.Forked?
    ensures var g := Top(Below(stack));
            var waiting := g.(phase := Wait(g.phase.pivot, g.phase.child, Top(stack).phase.result));
            StackOk(lt, issued, clock, Below(Below(stack)) + [waiting])
  {
    var below := Below(stack);
    var g := Top(below);
    assert Linked(stack[|stack| - 2], stack[|stack| - 1]);
    assert FrameOk(lt, issued, clock, Top(stack)) && FrameOk(lt, issued, clock, g);
    var waiting := g.(phase := Wait(g.phase.pivot, g.phase.child, Top(stack).phase.result));
    assert FrameOk(lt, issued, clock, waiting);
    StackPush(lt, issued, clock, Below(below), waiting);
  }

  lemma InlineInv<T(!new)>(lt: (T, T) -> bool, s: State<T>, w: nat)
    requires Inv(lt, s) && Enabled(lt, s, Inline(w))
    ensures Inv(lt, Apply(lt, s, Inline(w)))
  {
    hide StackOk, QueueOk, DoneOk, IssuedOk;
    InlineStack(lt, s.issued, s.clock, s.stacks[w]);
    InvFrom(lt, s, Apply(lt, s, Inline(w)), w);
  }

  /** A job that returns leaves a good stack, and its result is right. */
  lemma PublishStack<T(!new)>(lt: (T, T) -> bool, issued: seq<Issue<T>>, clock: nat, stack: seq<Frame<T>>)
    requires stack != [] && StackOk(lt, issued, clock, stack)
    requires Top(stack).phase.Return? && Top(stack).target.ToTask?
    ensures StackOk(lt, issued, clock, Below(stack))
    ensures var f := Top(stack);
            f.target.id < |issued| && SortedPermutation(lt, f.phase.result, issued[f.target.id].input)
  {
    assert FrameOk(lt, issued, clock, Top(stack));
    if |stack| >= 2 {
      assert Linked(stack[|stack| - 2], stack[|stack| - 1]);
    }
  }

  lemma PublishInv<T(!new)>(lt: (T, T) -> bool, s: State<T>, w: nat)
    requires Inv(lt, s) && Enabled(lt, s, Publish(w))
    ensures Inv(lt, Apply(lt, s, Publish(w)))
  {
    hide StackOk, QueueOk, IssuedOk, SortedPermutation;
    PublishStack(lt, s.issued, s.clock, s.stacks[w]);
    InvFrom(lt, s, Apply(lt, s, Publish(w)), w);
  }

  lemma StepInv<T(!new)>(lt: (T, T) -> bool, s: State<T>, step: Step<T>)
    requires StrictOrder(lt) && Inv(lt, s) && Enabled(lt, s, step)
    ensures Inv(lt, Apply(lt, s, step))
  {
    match step
    case Idle =>
    case Submit(input) => SubmitInv(lt, s, input);
    case Take(w, from) => TakeInv(lt, s, w, from);
    case Empty(w) => FinishTopInv(lt, s, w, [], Apply(lt, s, step));
    case Fork(w, lower, higher) => ForkInv(lt, s, w, lower, higher);
    case Inline(w) => InlineInv(lt, s, w);
    case Publish(w) => PublishInv(lt, s, w);
    case Join(w) => JoinInv(lt, s, w);
  }

  lemma {:induction false} RunInv<T(!new)>(lt: (T, T) -> bool, s: State<T>, steps: seq<Step<T>>)
    requires StrictOrder(lt) && Inv(lt, s) && CanRun(lt, s, steps)
    ensures Inv(lt, Run(lt, s, steps))
    decreases steps
  {
    if steps != [] {
      StepInv(lt, s, steps[0]);
      RunInv(lt, Apply(lt, s, steps[0]), steps[1..]);
    }
  }

  /** On every schedule, whatever a job publishes is a sorted permutation of its input. */
  lemma EveryScheduleSorts<T(!new)>(lt: (T, T) -> bool, n: nat, stealing: bool, steps: seq<Step<T>>, id: nat)
    requires StrictOrder(lt) && CanRun(lt, Init(n, stealing), steps)
    requires id in Run(lt, Init(n, stealing), steps).done
    ensures var s := Run(lt, Init(n, stealing), steps);
            id < |s.issued| && SortedPermutation(lt, s.done[id], s.issued[id].input)
  {
    InitInv(lt, n, stealing);
    RunInv(lt, Init(n, stealing), steps);
  }
}
