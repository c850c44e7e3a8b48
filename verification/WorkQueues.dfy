/** The queues of the thread pool (executor/ThreadPool.h): a shared queue and one deque per worker. */
module WorkQueues {
  import opened Options

  /** Where a worker takes its next job from. */
  datatype Source = Own | Shared | Victim(index: nat)

  /** The contents of all queues; every queue lists its oldest job first. */
  datatype Queues<J> = Queues(shared: seq<J>, local: seq<seq<J>>) {

    /** A submission from worker `me`, or from outside the pool when `me` is -1. */
    function Submit(me: int, job: J): Queues<J>
      requires -1 <= me < |local|
    {
      if me == -1 then this.(shared := shared + [job]) else this.(local := local[me := local[me] + [job]])
    }

    predicate CanTake(me: nat, from: Source) {
      match from
      case Own => me < |local| && local[me] != []
      case Shared => shared != []
      case Victim(v) => v < |local| && v != me && local[v] != []
    }

    /** The owner and the shared queue give their oldest job, a victim gives its newest. */
    function Job(me: nat, from: Source): J
      requires CanTake(me, from)
    {
      match from
      case Own => local[me][0]
      case Shared => shared[0]
      case Victim(v) => local[v][|local[v]| - 1]
    }

    function Take(me: nat, from: Source): Queues<J>
      requires CanTake(me, from)
    {
      match from
      case Own => this.(local := local[me := local[me][1..]])
      case Shared => this.(shared := shared[1..])
      case Victim(v) => this.(local := local[v := local[v][..|local[v]| - 1]])
    }
  }

  /** The i-th queue probed by a worker that looks for something to steal. */
  function Probe(me: nat, i: nat, n: nat): nat
    requires me < n
  {
    (me + i + 1) % n
  }

  /** The turn at which the sweep of worker `me` reaches queue v. */
  function Turn(me: nat, v: nat, n: nat): nat
    requires me < n && v < n && v != me
  {
    if v > me then v - me - 1 else n + v - me - 1
  }

  /**
   The sweep visits every other worker exactly once (Turn inverts Probe) and never the worker itself, going up
   from the worker's own index and on from 0.
   */
  lemma SweepVisitsEveryOtherOnce(me: nat, n: nat)
    requires me < n
    ensures forall i: nat | i < n - 1 ::
              Probe(me, i, n) < n && Probe(me, i, n) != me && Turn(me, Probe(me, i, n), n) == i
    ensures forall v: nat | v < n && v != me :: Turn(me, v, n) < n - 1 && Probe(me, Turn(me, v, n), n) == v
    ensures forall i: nat | i < n - 1 :: Probe(me, i, n) == me + i + 1 || Probe(me, i, n) == me + i + 1 - n
  {
    forall i: nat | i < n - 1 ensures Probe(me, i, n) == if me + i + 1 < n then me + i + 1 else me + i + 1 - n {
      Wrap(me + i + 1, n);
    }
  }

  lemma Wrap(x: nat, n: nat)
    requires n > 0 && x < 2 * n
    ensures x % n == if x < n then x else x - n
  {
    if x >= n {
      assert x == n * 1 + (x - n);
      assert x % n == (x - n) % n;
    }
  }

  /** One mutex-protected deque. `acquired` is the outcome of std::try_to_lock. */
  class ThreadSafeQueue<J> {
    var deque: seq<J>

    constructor ()
      ensures deque == []
    {
      deque := [];
    }

    method Push(t: J)
      modifies this
      ensures deque == old(deque) + [t]
    {
      deque := deque + [t];
    }

    method TryPop(acquired: bool) returns (job: Option<J>)
      modifies this
      ensures job == if acquired && old(deque) != [] then Some(old(deque)[0]) else None
      ensures deque == if job.Some? then old(deque)[1..] else old(deque)
    {
      if !acquired || deque == [] {
        return None;
      }
      job := Some(deque[0]);
      deque := deque[1..];
    }

    method TrySteal(acquired: bool) returns (job: Option<J>)
      modifies this
      ensures job == if acquired && old(deque) != [] then Some(old(deque)[|old(deque)| - 1]) else None
      ensures deque == if job.Some? then old(deque)[..|old(deque)| - 1] else old(deque)
    {
      if !acquired || deque == [] {
        return None;
      }
      job := Some(deque[|deque| - 1]);
      deque := deque[..|deque| - 1];
    }
  }

  /** The queue operations of ThreadPoolSimple, each under the locks the source takes. */
  class ThreadPool<J> {
    const shared: ThreadSafeQueue<J>
    const queues: seq<ThreadSafeQueue<J>>
    const enableSteal: bool
    var stop: bool

    ghost predicate Valid() {
      && (forall i, j | 0 <= i < j < |queues| :: queues[i] != queues[j])
      && shared !in queues
    }

    ghost function Contents(): Queues<J>
      reads shared, queues
    {
      Queues(shared.deque, seq(|queues|, i requires 0 <= i < |queues| reads queues => queues[i].deque))
    }

    constructor (n: nat, enableSteal: bool)
      ensures Valid() && |queues| == n && this.enableSteal == enableSteal && !stop
      ensures Contents() == Queues([], seq(n, i => []))
      ensures fresh(shared) && forall q | q in queues :: fresh(q)
    {
      var global := new ThreadSafeQueue<J>();
      var made: seq<ThreadSafeQueue<J>> := [];
      for i := 0 to n
        invariant |made| == i
        invariant forall q | q in made :: fresh(q) && q.deque == [] && q != global
        invariant forall a, b | 0 <= a < b < |made| :: made[a] != made[b]
        invariant fresh(global) && global.deque == []
      {
        var q := new ThreadSafeQueue<J>();
        made := made + [q];
      }
      shared := global;
      queues := made;
      this.enableSteal := enableSteal;
      stop := false;
    }

    /** Jobs are refused when empty or after the pool was stopped, and otherwise appended to one queue. */
    method Submit(me: int, fn: Option<J>) returns (accepted: bool)
      requires Valid() && -1 <= me < |queues|
      modifies shared, queues
      ensures accepted == (fn.Some? && !stop)
      ensures Contents() == if accepted then old(Contents()).Submit(me, fn.value) else old(Contents())
      ensures shared.deque == if accepted && me == -1 then old(shared.deque) + [fn.value] else old(shared.deque)
      ensures forall v | 0 <= v < |queues| ::
                queues[v].deque == old(queues[v].deque) + if accepted && me == v then [fn.value] else []
    {
      if fn.None? || stop {
        return false;
      }
      if me == -1 {
        shared.Push(fn.value);
      } else {
        queues[me].Push(fn.value);
      }
      return true;
    }

    /** One probe of the sweep. */
    method ProbeVictim(me: nat, v: nat, acquired: bool) returns (job: Option<J>)
      requires Valid() && me < |queues| && v < |queues| && v != me
      modifies queues
      ensures job.None? ==> Contents() == old(Contents()) && (acquired ==> old(Contents()).local[v] == [])
      ensures job.Some? ==> acquired && old(Contents()).CanTake(me, Victim(v))
      ensures job.Some? ==> job.value == old(Contents()).Job(me, Victim(v))
      ensures job.Some? ==> Contents() == old(Contents()).Take(me, Victim(v))
    {
      ghost var before := Contents();
      assert before.local[v] == queues[v].deque;
      job := queues[v].TrySteal(acquired);
      if job.Some? {
        assert Contents().local == before.Take(me, Victim(v)).local;
      } else {
        assert Contents().local == before.local;
      }
    }

    /** Steals from the first other queue that is neither locked nor empty; leaves everything alone if there is none. */
    method PopFromOtherQueues(me: nat, acquired: nat -> bool) returns (job: Option<J>, ghost from: Source)
      requires Valid() && me < |queues|
      modifies queues
      ensures job.None? ==> Contents() == old(Contents())
      ensures job.None? ==> forall v: nat | v < |queues| && v != me :: acquired(v) ==> old(Contents()).local[v] == []
      ensures job.Some? ==> from.Victim? && old(Contents()).CanTake(me, from) && acquired(from.index)
      ensures job.Some? ==> job.value == old(Contents()).Job(me, from) && Contents() == old(Contents()).Take(me, from)
      ensures job.Some? ==>
                forall v: nat | v < |queues| && v != me && Turn(me, v, |queues|) < Turn(me, from.index, |queues|) ::
                  acquired(v) ==> old(Contents()).local[v] == []
    {
      from := Shared;
      SweepVisitsEveryOtherOnce(me, |queues|);
      ghost var before := Contents();
      for i := 0 to |queues| - 1
        invariant Contents() == before
        invariant forall v: nat | v < |queues| && v != me && Turn(me, v, |queues|) < i ::
                    acquired(v) ==> before.local[v] == []
      {
        var index := Probe(me, i, |queues|);
        job := ProbeVictim(me, index, acquired(index));
        if job.Some? {
          from := Victim(index);
          return;
        }
      }
      job := None;
    }

    /** What run_pending_task fetches: own front, else shared front, else a theft if stealing is enabled. */
    method FetchPendingTask(me: nat, ownLock: bool, sharedLock: bool, acquired: nat -> bool)
      returns (job: Option<J>, ghost from: Source)
      requires Valid() && me < |queues|
      modifies shared, queues
      ensures job.None? ==> Contents() == old(Contents())
      ensures job.None? && ownLock ==> Contents().local[me] == []
      ensures job.None? && sharedLock ==> Contents().shared == []
      ensures job.None? && enableSteal ==>
          forall v: nat | v < |queues| && v != me :: acquired(v) ==> old(Contents()).local[v] == []
      ensures job.Some? ==> old(Contents()).CanTake(me, from) && (from.Victim? ==> enableSteal)
      ensures job.Some? ==> job.value == old(Contents()).Job(me, from) && Contents() == old(Contents()).Take(me, from)
      ensures job.Some? ==> match from case Own => ownLock case Shared => sharedLock case Victim(v) => acquired(v)
      ensures job.Some? && from != Own ==> !ownLock || old(Contents()).local[me] == []
      ensures job.Some? && from.Victim? ==> !sharedLock || old(Contents()).shared == []
    {
      from := Own;
      job := queues[me].TryPop(ownLock);
      if job.Some? {
        assert Contents() == old(Contents()).Take(me, from);
        return;
      }
      assert Contents() == old(Contents());
      from := Shared;
      job := shared.TryPop(sharedLock);
      if job.Some? {
        assert Contents() == old(Contents()).Take(me, from);
        return;
      }
      assert Contents() == old(Contents());
      if enableSteal {
        job, from := PopFromOtherQueues(me, acquired);
      }
    }
  }
}
