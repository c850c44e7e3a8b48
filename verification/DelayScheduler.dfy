/**
 The delayed-task scheduler (coroutine/include/6sleep/scheduler.h) as a step system with a clock that
 never goes back.

 A step is one stretch of code between two points where other threads can interfere: taking and releasing
 queue_lock, notifying after the lock is released, storing is_active without it. Two assumptions: a timeout
 is reported only when the clock has reached the deadline; and a notification that finds the worker waiting
 wakes it. A worker that was woken may still report a timeout if the deadline passes before it looks.
 */
module DelayScheduler {
  import opened Options
  import opened DelayHeap

  /** Where the worker thread stands in run_loop. */
  datatype Phase =
    | Head                                        // about to test the loop condition
    | Entering                                    // condition held; about to lock
    | Waiting                                     // in wait(lock): the queue was empty
    | Awake                                       // woken from wait(lock); about to hold the lock again
    | TimedWait(copy: Entry, deadline: int)       // in wait_for(lock, delay), holding a copy of the top
    | Notified(copy: Entry, deadline: int)        // woken from it; no status reported yet
    | TimedOut(copy: Entry)                       // wait_for reported a timeout; about to hold the lock again
    | Running(copy: Entry)                        // running the copied function, lock released
    | Exited                                      // left the loop
    | Broken                                      // called pop() on an empty queue

  /** queue_lock: free between steps, or held by an execute that decided whether to notify and is about to push. */
  datatype Lock = Free | Pushing(delay: nat, notify: bool)

  /** A function was started at time `at`. */
  datatype Start = Start(entry: Entry, at: int)

  /**
   toClear, toNotify: shutdowns that have yet to empty the queue, notifications yet to be made.
   accepted: every entry ever pushed, by id; started: the log of runs; dropped: what shutdown(false) threw
   away. left, skipped: for every pop that removed another entry than the one the worker ran, the entry that
   ran and the one that was removed.
   */
  datatype State = State(
    now: int, heap: Heap, active: bool, lock: Lock, toClear: nat, toNotify: nat, worker: Phase,
    accepted: seq<Entry>, started: seq<Start>, dropped: multiset<Entry>, left: seq<Entry>, skipped: seq<Entry>)

  function Init(now: int): State {
    State(now, [], true, Free, 0, 0, Head, [], [], multiset{}, [], [])
  }

  datatype Step =
    | Tick(d: nat)                                // time passes
    | Begin(delay: int)                           // execute locks and, if active, looks at the clock and the top
    | Push                                        // it looks at the clock again, pushes and unlocks
    | NotifyWorker                                // execute or shutdown notifies
    | Test                                        // the worker tests the loop condition
    | Lock(d: nat)                                // the worker locks; d passes before its timed wait begins
    | Relock(d: nat)                              // the worker holds the lock again after wait(lock)
    | Spurious                                    // a spurious wake
    | Continue                                    // wait_for returns without a timeout
    | Timeout                                     // wait_for reports a timeout
    | PopAndRun                                   // the worker pops after a timeout and starts its copy
    | Finish                                      // the function returned
    | Shutdown(waitForComplete: bool)             // shutdown clears is_active
    | Clear                                       // shutdown(false) empties the queue

  /** The only thread that ever waits is the worker. */
  function Notify(worker: Phase): Phase {
    match worker
    case Waiting => Awake
    case TimedWait(copy, deadline) => Notified(copy, deadline)
    case _ => worker
  }

  function Clamp(delay: int): nat {
    if delay < 0 then 0 else delay
  }

  /** The queue was empty, or its top was due later than the new entry will be. */
  predicate NeedNotify(heap: Heap, now: int, delay: int) {
    heap == [] || heap[0].time - now > delay
  }

  /** Copy the top; if it is due run it, else sleep for the rest of its delay. */
  function Inspect(s: State, d: nat): State
    requires s.heap != []
  {
    var top := s.heap[0];
    var delay := top.time - s.now;
    if delay > 0 then s.(now := s.now + d, worker := TimedWait(top, s.now + d + delay)) else RunRoot(s)
  }

  function RunRoot(s: State): State
    requires s.heap != []
  {
    s.(heap := Pop(s.heap), worker := Running(s.heap[0]), started := s.started + [Start(s.heap[0], s.now)])
  }

  /** The copy is run and the root is removed, which may be another entry. */
  function RunCopy(s: State, copy: Entry): State
    requires s.heap != []
  {
    if s.heap[0] == copy then RunRoot(s)
    else s.(heap := Pop(s.heap), worker := Running(copy), started := s.started + [Start(copy, s.now)],
            left := s.left + [copy], skipped := s.skipped + [s.heap[0]])
  }

  /** The entry that an execute about to push will add: its time counts from the second look at the clock. */
  function NewEntry(s: State): Entry
    requires s.lock.Pushing?
  {
    Entry(|s.accepted|, s.now + s.lock.delay)
  }

  function Pushed(s: State, heap: Heap): State
    requires s.lock.Pushing?
  {
    s.(heap := heap, accepted := s.accepted + [NewEntry(s)], lock := Free,
       toNotify := if s.lock.notify then s.toNotify + 1 else s.toNotify)
  }

  predicate Enabled(s: State, step: Step) {
    match step
    case Tick(_) => true
    case Begin(_) => s.lock.Free?
    case Push => s.lock.Pushing?
    case NotifyWorker => s.toNotify > 0
    case Test => s.worker.Head?
    case Lock(_) => s.lock.Free? && s.worker.Entering?
    case Relock(_) => s.lock.Free? && s.worker.Awake?
    case Spurious => s.worker.Waiting? || s.worker.TimedWait?
    case Continue => s.lock.Free? && s.worker.Notified?
    case Timeout => (s.worker.TimedWait? || s.worker.Notified?) && s.now >= s.worker.deadline
    case PopAndRun => s.lock.Free? && s.worker.TimedOut?
    case Finish => s.worker.Running?
    case Shutdown(_) => true
    case Clear => s.lock.Free? && s.toClear > 0
  }

  function Apply(s: State, step: Step): State
    requires Enabled(s, step)
  {
    match step
    case Tick(d) => s.(now := s.now + d)
    case Begin(delay) =>
      if s.active then s.(lock := Pushing(Clamp(delay), NeedNotify(s.heap, s.now, Clamp(delay)))) else s
    case Push => Pushed(s, DelayHeap.Push(s.heap, NewEntry(s)))
    case NotifyWorker => s.(toNotify := s.toNotify - 1, worker := Notify(s.worker))
    case Test => s.(worker := if s.active || s.heap != [] then Entering else Exited)
    case Lock(d) => if s.heap == [] then s.(worker := Waiting) else Inspect(s, d)
    case Relock(d) => if s.heap == [] then s.(worker := Head) else Inspect(s, d)
    case Spurious => s.(worker := Notify(s.worker))
    case Continue => s.(worker := Head)
    case Timeout => s.(worker := TimedOut(s.worker.copy))
    case PopAndRun => if s.heap == [] then s.(worker := Broken) else RunCopy(s, s.worker.copy)
    case Finish => s.(worker := Head)
    case Shutdown(wait) =>
      if wait then s.(active := false, toNotify := s.toNotify + 1)
      else s.(active := false, toClear := s.toClear + 1)
    case Clear =>
      s.(heap := [], dropped := s.dropped + multiset(s.heap), toClear := s.toClear - 1, toNotify := s.toNotify + 1)
  }

  predicate CanRun(s: State, steps: seq<Step>)
    decreases steps
  {
    steps == [] || (Enabled(s, steps[0]) && CanRun(Apply(s, steps[0]), steps[1..]))
  }

  function Run(s: State, steps: seq<Step>): State
    requires CanRun(s, steps)
    decreases steps
  {
    if steps == [] then s else Run(Apply(s, steps[0]), steps[1..])
  }

  // ----- The invariant -----

  function Entries(log: seq<Start>): seq<Entry> {
    seq(|log|, i requires 0 <= i < |log| => log[i].entry)
  }

  /** The copy the worker holds while it sleeps and until it pops. */
  function Held(worker: Phase): Option<Entry> {
    match worker
    case TimedWait(copy, _) => Some(copy)
    case Notified(copy, _) => Some(copy)
    case TimedOut(copy) => Some(copy)
    case _ => None
  }

  /** The queue was cleared for good, or its root is the copy or is due strictly before it. */
  ghost predicate CopyOk(s: State, copy: Entry) {
    if s.heap == [] then !s.active && s.lock.Free?
    else copy in s.heap && (s.heap[0] == copy || s.heap[0].time < copy.time)
  }

  /** What the worker's position promises: whoever sleeps although it should not has a notification to come. */
  ghost predicate WorkerOk(s: State) {
    && (Held(s.worker).Some? ==> CopyOk(s, Held(s.worker).value))
    && match s.worker
       case Waiting => s.heap == [] || s.toNotify > 0
       case TimedWait(copy, deadline) =>
         copy.time <= deadline && ((s.heap != [] && s.heap[0] == copy) || s.toNotify > 0)
       case Notified(copy, deadline) => copy.time <= deadline
       case TimedOut(copy) => copy.time <= s.now
       case _ => true
  }

  /** An execute that will not notify adds an entry that is due no earlier than the top. */
  ghost predicate LockOk(s: State) {
    s.lock.Pushing? && !s.lock.notify ==> s.heap != [] && s.heap[0].time <= s.now + s.lock.delay
  }

  ghost predicate HeapOk(s: State) {
    && IsHeap(s.heap)
    && (forall x | x in s.heap :: x in s.accepted)
    && (forall x | x in s.heap :: multiset(s.heap)[x] == 1)
    && (forall i | 0 <= i < |s.accepted| :: s.accepted[i].id == i)
  }

  ghost predicate OnTime(s: State) {
    forall i | 0 <= i < |s.started| :: s.started[i].entry.time <= s.started[i].at <= s.now
  }

  /** Accepted entries are queued, started, dropped or skipped; the starts in excess are those of left entries. */
  ghost predicate Account(s: State) {
    multiset(s.accepted) + multiset(s.left)
      == multiset(s.heap) + multiset(Entries(s.started)) + s.dropped + multiset(s.skipped)
  }

  /** Each skipped entry was due strictly before the one that was left. */
  ghost predicate SkipsOk(left: seq<Entry>, skipped: seq<Entry>) {
    |left| == |skipped| && forall i | 0 <= i < |left| :: skipped[i].time < left[i].time
  }

  /** The queued entries that have been started already are exactly the left ones that are still queued. */
  ghost predicate LeftOk(accepted: seq<Entry>, heap: Heap, ran: seq<Entry>, left: seq<Entry>) {
    && (forall x | x in ran :: x in accepted)
    && (forall x | x in left :: x in ran)
    && (forall x | x in heap && x in ran :: x in left)
  }

  ghost predicate LogsOk(s: State) {
    SkipsOk(s.left, s.skipped) && LeftOk(s.accepted, s.heap, Entries(s.started), s.left)
  }

  ghost predicate Inv(s: State) {
    WorkerOk(s) && LockOk(s) && HeapOk(s) && OnTime(s) && Account(s) && LogsOk(s)
  }

  lemma InitInv(now: int)
    ensures Inv(Init(now))
  {
    assert Entries([]) == [];
  }

  lemma BagMembers(h: Heap)
    ensures forall x: Entry :: x in h <==> multiset(h)[x] > 0
  {
    forall x: Entry ensures x in h <==> multiset(h)[x] > 0 {
      assert x in h <==> x in multiset(h);
    }
  }

  /** A step leaves the queue and the logs alone. */
  ghost predicate Quiet(s: State, t: State) {
    t == s.(now := t.now, active := t.active, lock := t.lock, toClear := t.toClear, toNotify := t.toNotify,
            worker := t.worker)
  }

  lemma QuietWorker(s: State, step: Step)
    requires WorkerOk(s) && LockOk(s) && Enabled(s, step) && Quiet(s, Apply(s, step))
    requires step.Lock? || step.Relock? ==> s.heap == [] || s.heap[0].time > s.now
    ensures WorkerOk(Apply(s, step)) && LockOk(Apply(s, step)) && s.now <= Apply(s, step).now
  {
    hide Pop, DelayHeap.Push;
    if s.heap != [] { assert s.heap[0] in s.heap; }
  }

  lemma QuietInv(s: State, step: Step)
    requires Inv(s) && Enabled(s, step) && Quiet(s, Apply(s, step))
    requires step.Lock? || step.Relock? ==> s.heap == [] || s.heap[0].time > s.now
    ensures Inv(Apply(s, step))
  {
    QuietWorker(s, step);
    var t := Apply(s, step);
    hide Apply, WorkerOk, LockOk, IsHeap;
    assert HeapOk(t) && Account(t) && LogsOk(t) && OnTime(t);
  }

  lemma PushInv(s: State)
    requires Inv(s) && s.lock.Pushing?
    ensures Inv(Apply(s, Push))
  {
    var heap := DelayHeap.Push(s.heap, NewEntry(s));
    PushProperties(s.heap, NewEntry(s));
    PushedHeap(s, heap);
    PushedWorker(s, heap);
    PushedLogs(s, heap);
  }

  lemma PushedHeap(s: State, heap: Heap)
    requires HeapOk(s) && s.lock.Pushing?
    requires IsHeap(heap) && multiset(heap) == multiset(s.heap) + multiset{NewEntry(s)}
    ensures HeapOk(Pushed(s, heap))
    ensures forall x: Entry :: x in heap <==> x in s.heap || x == NewEntry(s)
    ensures NewEntry(s) !in s.accepted
  {
    BagMembers(s.heap);
    BagMembers(heap);
  }

  /** An entry that displaces the top the worker sleeps for comes with a notification. */
  lemma PushedWorker(s: State, heap: Heap)
    requires WorkerOk(s) && LockOk(s) && s.lock.Pushing?
    requires heap != [] && forall x | x in s.heap :: x in heap
    requires heap[0] == if s.heap == [] || NewEntry(s).time < s.heap[0].time then NewEntry(s) else s.heap[0]
    ensures WorkerOk(Pushed(s, heap))
  {
  }

  lemma PushedLogs(s: State, heap: Heap)
    requires Inv(s) && s.lock.Pushing? && NewEntry(s) !in s.accepted
    requires multiset(heap) == multiset(s.heap) + multiset{NewEntry(s)}
    requires forall x: Entry :: x in heap <==> x in s.heap || x == NewEntry(s)
    ensures Account(Pushed(s, heap)) && LogsOk(Pushed(s, heap))
  {
    var t := Pushed(s, heap);
    assert multiset(t.accepted) == multiset(s.accepted) + multiset{NewEntry(s)};
    Balance(multiset(s.accepted), multiset(s.left), multiset(s.heap), multiset(Entries(s.started)), s.dropped,
            multiset(s.skipped), multiset{NewEntry(s)});
  }

  lemma ClearInv(s: State)
    requires Inv(s) && s.lock.Free? && s.toClear > 0 && !s.active
    ensures Inv(Apply(s, Clear))
  {
  }

  /** Removing the root: what is left of the queue. */
  lemma PoppedHeap(s: State)
    requires HeapOk(s) && s.heap != []
    ensures forall x: Entry :: x in Pop(s.heap) <==> x in s.heap && x != s.heap[0]
    ensures IsHeap(Pop(s.heap)) && multiset(s.heap) == multiset(Pop(s.heap)) + multiset{s.heap[0]}
    ensures forall x | x in Pop(s.heap) :: multiset(Pop(s.heap))[x] == 1
  {
    PopProperties(s.heap);
    BagMembers(s.heap);
    BagMembers(Pop(s.heap));
    assert s.heap[0] in s.heap;
    forall x | x in Pop(s.heap) ensures multiset(Pop(s.heap))[x] == 1 {
      assert multiset(s.heap)[x] > 0;
      assert x in s.heap;
    }
  }

  lemma RootBag(s: State)
    requires HeapOk(s) && s.heap != []
    ensures multiset(s.heap) == multiset(Pop(s.heap)) + multiset{s.heap[0]}
  {
    PoppedHeap(s);
  }

  lemma MoreEntries(log: seq<Start>, x: Start)
    ensures Entries(log + [x]) == Entries(log) + [x.entry]
  {
  }

  /** Adding the same entry on both sides of a balance. */
  lemma Balance(a: multiset<Entry>, l: multiset<Entry>, h: multiset<Entry>, e: multiset<Entry>,
                d: multiset<Entry>, k: multiset<Entry>, x: multiset<Entry>)
    requires a + l == h + e + d + k
    ensures (a + x) + l == (h + x) + e + d + k
    ensures a + (l + x) == h + (e + x) + d + k
  {
    assert (a + x) + l == (a + l) + x;
    assert (h + x) + e + d + k == (h + e + d + k) + x;
    assert a + (l + x) == (a + l) + x;
    assert h + (e + x) + d + k == (h + e + d + k) + x;
  }

  /** One entry moves from the queue to the log. */
  lemma RootAccount(s: State)
    requires Account(s) && s.heap != [] && multiset(s.heap) == multiset(Pop(s.heap)) + multiset{s.heap[0]}
    ensures Account(RunRoot(s))
  {
    var t := RunRoot(s);
    MoreEntries(s.started, Start(s.heap[0], s.now));
    assert multiset(Entries(t.started)) == multiset(Entries(s.started)) + multiset{s.heap[0]};
  }

  /** One entry is removed and skipped, another one started and left. */
  lemma OtherAccount(s: State, copy: Entry)
    requires Account(s) && s.heap != [] && multiset(s.heap) == multiset(Pop(s.heap)) + multiset{s.heap[0]}
    requires s.heap[0] != copy
    ensures Account(RunCopy(s, copy))
  {
    var t := RunCopy(s, copy);
    MoreEntries(s.started, Start(copy, s.now));
    assert multiset(Entries(t.started)) == multiset(Entries(s.started)) + multiset{copy};
    assert multiset(t.left) == multiset(s.left) + multiset{copy};
    var bag, root := multiset(Pop(s.heap)), multiset{s.heap[0]};
    assert multiset(t.skipped) == multiset(s.skipped) + root;
    assert (bag + root) + multiset(Entries(s.started)) + s.dropped + multiset(s.skipped)
        == bag + multiset(Entries(s.started)) + s.dropped + multiset(t.skipped);
    Balance(multiset(s.accepted), multiset(s.left), bag, multiset(Entries(s.started)), s.dropped,
            multiset(t.skipped), multiset{copy});
  }

  lemma RunHeap(s: State, t: State)
    requires HeapOk(s) && s.heap != [] && t.heap == Pop(s.heap) && t.accepted == s.accepted
    ensures HeapOk(t)
  {
    PoppedHeap(s);
  }

  lemma RootLogs(s: State)
    requires LogsOk(s) && HeapOk(s) && s.heap != []
    ensures LogsOk(RunRoot(s))
  {
    PoppedHeap(s);
    MoreEntries(s.started, Start(s.heap[0], s.now));
    assert s.heap[0] in s.heap;
    RootLeft(s.accepted, s.heap, Entries(s.started), s.left, Pop(s.heap), s.heap[0]);
  }

  lemma RootLeft(accepted: seq<Entry>, heap: Heap, ran: seq<Entry>, left: seq<Entry>, rest: Heap, root: Entry)
    requires LeftOk(accepted, heap, ran, left) && root in accepted
    requires forall x | x in rest :: x in heap && x != root
    ensures LeftOk(accepted, rest, ran + [root], left)
  {
  }

  lemma OtherLeft(accepted: seq<Entry>, heap: Heap, ran: seq<Entry>, left: seq<Entry>, rest: Heap, copy: Entry)
    requires LeftOk(accepted, heap, ran, left) && copy in accepted
    requires forall x | x in rest :: x in heap
    ensures LeftOk(accepted, rest, ran + [copy], left + [copy])
  {
  }

  lemma RunRootInv(s: State)
    requires Inv(s) && s.heap != [] && s.heap[0].time <= s.now && s.lock.Free?
    ensures Inv(RunRoot(s))
  {
    hide Account, LogsOk, Pop;
    RunHeap(s, RunRoot(s));
    RootBag(s);
    RootAccount(s);
    RootLogs(s);
    hide HeapOk, CopyOk;
  }

  lemma MoreSkips(left: seq<Entry>, skipped: seq<Entry>, x: Entry, y: Entry)
    requires SkipsOk(left, skipped) && y.time < x.time
    ensures SkipsOk(left + [x], skipped + [y])
  {
  }

  lemma OtherLogs(s: State, copy: Entry)
    requires LogsOk(s) && HeapOk(s) && s.heap != [] && CopyOk(s, copy) && s.heap[0] != copy
    ensures LogsOk(RunCopy(s, copy))
  {
    PoppedHeap(s);
    MoreEntries(s.started, Start(copy, s.now));
    MoreSkips(s.left, s.skipped, copy, s.heap[0]);
    assert copy in s.accepted;
    hide Pop, IsHeap, Entries, LeftOk, SkipsOk, HeapOk, CopyOk;
    OtherLeft(s.accepted, s.heap, Entries(s.started), s.left, Pop(s.heap), copy);
  }

  lemma RunOtherInv(s: State, copy: Entry)
    requires Inv(s) && s.heap != [] && s.heap[0] != copy && s.lock.Free?
    requires Held(s.worker) == Some(copy) && copy.time <= s.now
    ensures Inv(RunCopy(s, copy))
  {
    hide Account, LogsOk, Pop;
    RunHeap(s, RunCopy(s, copy));
    RootBag(s);
    OtherAccount(s, copy);
    OtherLogs(s, copy);
    hide HeapOk, CopyOk;
  }

  /** Only a shutdown makes the queue to be cleared, and it deactivates first. */
  ghost predicate ShutdownOk(s: State) {
    s.toClear > 0 ==> !s.active
  }

  lemma StepInv(s: State, step: Step)
    requires Inv(s) && ShutdownOk(s) && Enabled(s, step)
    ensures Inv(Apply(s, step)) && ShutdownOk(Apply(s, step))
  {
    hide Pop, DelayHeap.Push, HeapOk, LogsOk, Account, OnTime, LockOk;
    match step
    case Push => PushInv(s);
    case Clear => ClearInv(s);
    case PopAndRun =>
      if s.heap != [] {
        if s.heap[0] == s.worker.copy { RunRootInv(s); } else { RunOtherInv(s, s.worker.copy); }
      } else {
        QuietInv(s, step);
      }
    case Lock(_) => if s.heap != [] && s.heap[0].time <= s.now { RunRootInv(s); } else { QuietInv(s, step); }
    case Relock(_) => if s.heap != [] && s.heap[0].time <= s.now { RunRootInv(s); } else { QuietInv(s, step); }
    case _ => QuietInv(s, step);
  }

  lemma {:induction false} RunInv(s: State, steps: seq<Step>)
    requires Inv(s) && ShutdownOk(s) && CanRun(s, steps)
    ensures Inv(Run(s, steps)) && ShutdownOk(Run(s, steps))
    decreases steps
  {
    if steps != [] {
      StepInv(s, steps[0]);
      RunInv(Apply(s, steps[0]), steps[1..]);
    }
  }

  ghost predicate Reached(start: int, steps: seq<Step>, s: State) {
    CanRun(Init(start), steps) && s == Run(Init(start), steps)
  }

  lemma ReachedInv(start: int, steps: seq<Step>, s: State)
    requires Reached(start, steps, s)
    ensures Inv(s)
  {
    InitInv(start);
    RunInv(Init(start), steps);
  }

  /** The steps of an execute do what Scheduler.Execute does. */
  lemma ExecuteSteps(s: State, delay: int, later: int)
    requires s.lock.Free? && s.now <= later
    ensures !s.active ==> Apply(s, Begin(delay)) == s
    ensures s.active ==>
              var asked := if delay < 0 then 0 else delay;
              && Apply(s, Begin(delay)).lock.Pushing?
              && var t := Apply(Apply(Apply(s, Begin(delay)), Tick(later - s.now)), Step.Push);
                 && t.heap == DelayHeap.Push(s.heap, Entry(|s.accepted|, later + asked))
                 && t.toNotify == s.toNotify + if s.heap == [] || s.heap[0].time - s.now > asked then 1 else 0
  {
    hide DelayHeap.Push, Pop;
  }

  // ----- The imperative scheduler -----

  /** The members of Scheduler, each as the code runs under queue_lock. */
  class Scheduler {
    const queue: PriorityQueue
    var isActive: bool

    constructor ()
      ensures fresh(queue) && queue.entries == [] && isActive
    {
      queue := new PriorityQueue();
      isActive := true;
    }

    /** execute: `now` and `later` are its two looks at the clock. */
    method Execute(id: nat, delay: int, now: int, later: int) returns (notify: bool)
      requires now <= later
      modifies queue
      ensures notify ==> isActive
      ensures isActive ==>
                (notify <==>
                   old(queue.entries) == [] || old(queue.entries)[0].time - now > if delay < 0 then 0 else delay)
      ensures queue.entries ==
        if isActive then DelayHeap.Push(old(queue.entries), Entry(id, later + if delay < 0 then 0 else delay))
        else old(queue.entries)
    {
      notify := false;
      var clamped := if delay < 0 then 0 else delay;
      if isActive {
        notify := queue.entries == [] || queue.entries[0].time - now > clamped;
        queue.Add(Entry(id, later + clamped));
      }
    }

    /** The part of run_loop from holding the lock with a nonempty queue up to releasing it. */
    method InspectTop(now: int, d: nat) returns (next: Phase)
      requires queue.entries != []
      modifies queue
      ensures var top := old(queue.entries)[0];
              if top.time > now then next == TimedWait(top, top.time + d) && queue.entries == old(queue.entries)
              else next == Running(top) && queue.entries == Pop(old(queue.entries))
      ensures forall s: State | s.heap == old(queue.entries) && s.now == now ::
                queue.entries == Inspect(s, d).heap && next == Inspect(s, d).worker
    {
      var executable := queue.entries[0];
      var delay := executable.time - now;
      if delay > 0 {
        return TimedWait(executable, now + d + delay);
      }
      queue.RemoveTop();
      return Running(executable);
    }

    /** The part after a timeout: pop, and run the copy. */
    method PopTop(copy: Entry) returns (next: Phase)
      requires queue.entries != []
      modifies queue
      ensures next == Running(copy) && queue.entries == Pop(old(queue.entries))
      ensures forall s: State | s.heap == old(queue.entries) ::
                queue.entries == RunCopy(s, copy).heap && next == RunCopy(s, copy).worker
    {
      queue.RemoveTop();
      return Running(copy);
    }

    /** shutdown: the steps Shutdown and, if it does not wait, Clear. */
    method ShutDown(waitForComplete: bool)
      modifies this, queue
      ensures !isActive
      ensures queue.entries == if waitForComplete then old(queue.entries) else []
    {
      isActive := false;
      if !waitForComplete {
        queue.entries := [];
      }
    }
  }
}
