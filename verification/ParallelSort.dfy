/**
 The fork/join quicksort of executor/test_threadpool.cpp on the work-stealing pool, as a step system.

 One step of one thread is one atomic action of the source: a queue operation under its lock, the
 store to a `done` flag, or a stretch of code that touches only the thread's own call stack.
 A worker may take from any allowed source at any time it calls run_pending_task, since every
 try_to_lock on the way may have failed.
 */
module ParallelSort {
  import opened Ordering
  import opened WorkQueues

  /** A submitted closure: sort `input`, then publish the result under `id`. */
  datatype Job<T> = Job(id: nat, input: seq<T>)

  /** Who gets the value a call of par_quick_sort returns. */
  datatype Target = ToTask(id: nat) | ToCaller

  /** Where a call of par_quick_sort stands. */
  datatype Phase<T> =
    | Enter                                            // about to run
    | Forked(pivot: T, child: nat, higher: seq<T>)     // lower half submitted, the call above sorts the higher
    | Wait(pivot: T, child: nat, higher: seq<T>)       // higher half sorted, spinning on the child's flag
    | Return(result: seq<T>)                           // about to return

  /** One activation of par_quick_sort; `stamp` is the moment it started. */
  datatype Frame<T> = Frame(stamp: nat, target: Target, input: seq<T>, phase: Phase<T>)

  /** A job once submitted: its input and the moment of its submission. */
  datatype Issue<T> = Issue(input: seq<T>, at: nat)

  /** A job was taken from a worker's queue, or from the shared queue (-1). */
  datatype TakeEvent = TakeEvent(id: nat, queue: int)

  /**
   queues: the pool; stacks: the call stack of every worker, top last; done: the published results;
   issued: every job ever submitted, indexed by job id; started: the log of takes;
   clock: the number of frames pushed so far.
   */
  datatype State<T> = State(
    stealing: bool, queues: Queues<Job<T>>, stacks: seq<seq<Frame<T>>>,
    done: map<nat, seq<T>>, issued: seq<Issue<T>>, started: seq<TakeEvent>, clock: nat)

  /** n workers, empty queues. */
  function Init<T>(n: nat, stealing: bool): State<T> {
    State(stealing, Queues([], seq(n, i => [])), seq(n, i => []), map[], [], [], 0)
  }

  datatype Step<T> =
    | Idle                                             // a failed lock, an empty poll, a read of an unset flag
    | Submit(input: seq<T>)                            // do_sort, called outside the pool
    | Take(w: nat, from: Source)                       // run_pending_task got a job
    | Empty(w: nat)                                    // par_quick_sort of the empty list
    | Fork(w: nat, lower: seq<T>, higher: seq<T>)      // partition and submit the lower half
    | Inline(w: nat)                                   // the higher half returned to the caller below
    | Publish(w: nat)                                  // a job stores its result and sets its flag
    | Join(w: nat)                                     // the waiting loop saw the flag and spliced the parts

  /** A step that gets some worker ahead; neither polling in vain nor a request from outside. */
  predicate IsWork<T>(step: Step<T>) {
    !step.Idle? && !step.Submit?
  }

  predicate Busy<T>(s: State<T>, w: nat) {
    w < |s.stacks| && s.stacks[w] != []
  }

  function Top<T>(stack: seq<Frame<T>>): Frame<T>
    requires stack != []
  {
    stack[|stack| - 1]
  }

  function Below<T>(stack: seq<Frame<T>>): seq<Frame<T>>
    requires stack != []
  {
    stack[..|stack| - 1]
  }

  /** A worker calls run_pending_task from its main loop or from a waiting frame. */
  predicate MayPoll<T>(stack: seq<Frame<T>>) {
    stack == [] || Top(stack).phase.Wait?
  }

  ghost predicate Enabled<T>(lt: (T, T) -> bool, s: State<T>, step: Step<T>) {
    match step
    case Idle => true
    case Submit(_) => true
    case Take(w, from) =>
      && w < |s.stacks| && MayPoll(s.stacks[w])
      && s.queues.CanTake(w, from) && (from.Victim? ==> s.stealing)
    case Empty(w) => Busy(s, w) && Top(s.stacks[w]).phase.Enter? && Top(s.stacks[w]).input == []
    case Fork(w, lower, higher) =>
      && Busy(s, w) && w < |s.queues.local|
      && var f := Top(s.stacks[w]);
      && f.phase.Enter? && f.input != []
      && Partition(lt, f.input[0], f.input[1..], lower, higher)
    case Inline(w) =>
      && Busy(s, w) && |s.stacks[w]| >= 2
      && Top(s.stacks[w]).phase.Return? && Top(s.stacks[w]).target.ToCaller?
      && Top(Below(s.stacks[w])).phase.Forked?
    case Publish(w) => Busy(s, w) && Top(s.stacks[w]).phase.Return? && Top(s.stacks[w]).target.ToTask?
    case Join(w) => Busy(s, w) && Top(s.stacks[w]).phase.Wait? && Top(s.stacks[w]).phase.child in s.done
  }

  function QueueOf(w: nat, from: Source): int {
    match from
    case Own => w
    case Shared => -1
    case Victim(v) => v
  }

  ghost function Apply<T>(lt: (T, T) -> bool, s: State<T>, step: Step<T>): State<T>
    requires Enabled(lt, s, step)
  {
    match step
    case Idle => s
    case Submit(input) =>
      s.(queues := s.queues.Submit(-1, Job(|s.issued|, input)), issued := s.issued + [Issue(input, s.clock)])
    case Take(w, from) =>
      var job := s.queues.Job(w, from);
      var frame := Frame(s.clock, ToTask(job.id), job.input, Enter);
      s.(queues := s.queues.Take(w, from), stacks := s.stacks[w := s.stacks[w] + [frame]],
         started := s.started + [TakeEvent(job.id, QueueOf(w, from))], clock := s.clock + 1)
    case Empty(w) =>
      s.(stacks := s.stacks[w := Below(s.stacks[w]) + [Top(s.stacks[w]).(phase := Return([]))]])
    case Fork(w, lower, higher) =>
      var f := Top(s.stacks[w]);
      var child := |s.issued|;
      var call := Frame(s.clock, ToCaller, higher, Enter);
      s.(queues := s.queues.Submit(w, Job(child, lower)), issued := s.issued + [Issue(lower, s.clock)],
         stacks := s.stacks[w := Below(s.stacks[w]) + [f.(phase := Forked(f.input[0], child, higher))] + [call]],
         clock := s.clock + 1)
    case Inline(w) =>
      var below := Below(s.stacks[w]);
      var p := Top(below).phase;
      var g := Top(below).(phase := Wait(p.pivot, p.child, Top(s.stacks[w]).phase.result));
      s.(stacks := s.stacks[w := Below(below) + [g]])
    case Publish(w) =>
      var f := Top(s.stacks[w]);
      s.(stacks := s.stacks[w := Below(s.stacks[w])], done := s.done[f.target.id := f.phase.result])
    case Join(w) =>
      var f := Top(s.stacks[w]);
      var result := s.done[f.phase.child] + [f.phase.pivot] + f.phase.higher;
      s.(stacks := s.stacks[w := Below(s.stacks[w]) + [f.(phase := Return(result))]])
  }

  /** A schedule: any sequence of enabled steps. */
  ghost predicate CanRun<T>(lt: (T, T) -> bool, s: State<T>, steps: seq<Step<T>>)
    decreases steps
  {
    steps == [] || (Enabled(lt, s, steps[0]) && CanRun(lt, Apply(lt, s, steps[0]), steps[1..]))
  }

  ghost function Run<T>(lt: (T, T) -> bool, s: State<T>, steps: seq<Step<T>>): State<T>
    requires CanRun(lt, s, steps)
    decreases steps
  {
    if steps == [] then s else Run(lt, Apply(lt, s, steps[0]), steps[1..])
  }
}
