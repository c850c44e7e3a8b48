/**
 The priority queue of the delayed-task scheduler (coroutine/include/6sleep/scheduler.h): a binary heap
 whose root has the smallest scheduled time, since operator< of DelayedExecutable compares the other way round.
 */
module DelayHeap {

  /** A DelayedExecutable: which function, and when it is due. */
  datatype Entry = Entry(id: nat, time: int)

  type Heap = seq<Entry>

  function Parent(i: nat): nat
    requires i > 0
  {
    (i - 1) / 2
  }

  ghost predicate IsHeap(h: Heap) {
    forall i | 0 < i < |h| :: h[Parent(i)].time <= h[i].time
  }

  function Swap(h: Heap, i: nat, j: nat): (r: Heap)
    requires i < |h| && j < |h|
    ensures |r| == |h| && multiset(r) == multiset(h)
  {
    h[i := h[j]][j := h[i]]
  }

  /** Moves entry i up past every parent that is due strictly later. */
  function SiftUp(h: Heap, i: nat): (r: Heap)
    requires i < |h|
    ensures |r| == |h| && multiset(r) == multiset(h)
    decreases i
  {
    if i > 0 && h[i].time < h[Parent(i)].time then SiftUp(Swap(h, i, Parent(i)), Parent(i)) else h
  }

  /** The child of i that is due first; i itself if it has none. */
  function EarlierChild(h: Heap, i: nat): (c: nat)
    requires i < |h|
    ensures c == i || (c < |h| && c > i && Parent(c) == i)
    ensures forall d | 0 < d < |h| && Parent(d) == i :: c != i && h[c].time <= h[d].time
  {
    var left, right := 2 * i + 1, 2 * i + 2;
    if right < |h| && h[right].time < h[left].time then right
    else if left < |h| then left else i
  }

  /** Moves entry i down past every child that is due strictly earlier. */
  function SiftDown(h: Heap, i: nat): (r: Heap)
    requires i < |h|
    ensures |r| == |h| && multiset(r) == multiset(h)
    decreases |h| - i
  {
    var c := EarlierChild(h, i);
    if h[c].time < h[i].time then SiftDown(Swap(h, i, c), c) else h
  }

  function Push(h: Heap, x: Entry): Heap {
    SiftUp(h + [x], |h|)
  }

  function Pop(h: Heap): Heap
    requires h != []
  {
    if |h| == 1 then [] else SiftDown([h[|h| - 1]] + h[1..|h| - 1], 0)
  }

  // ----- The root is the minimum -----

  lemma {:induction false} RootIsEarliest(h: Heap, i: nat)
    requires IsHeap(h) && i < |h|
    ensures h[0].time <= h[i].time
    decreases i
  {
    if i > 0 { RootIsEarliest(h, Parent(i)); }
  }

  // ----- Push -----

  /** A heap except that entry k may be due before its parent. */
  ghost predicate HeapButUp(h: Heap, k: nat) {
    && (forall i | 0 < i < |h| && i != k :: h[Parent(i)].time <= h[i].time)
    && (k > 0 ==> forall i | 0 < i < |h| && Parent(i) == k :: h[Parent(k)].time <= h[i].time)
  }

  lemma SiftUpStep(h: Heap, i: nat)
    requires 0 < i < |h| && HeapButUp(h, i) && h[i].time < h[Parent(i)].time
    ensures HeapButUp(Swap(h, i, Parent(i)), Parent(i))
  {
    var p := Parent(i);
    var t := Swap(h, i, p);
    forall j | 0 < j < |t| && j != p ensures t[Parent(j)].time <= t[j].time {
      if Parent(j) == p && j != i { assert h[p].time <= h[j].time; }
    }
    if p > 0 {
      forall j | 0 < j < |t| && Parent(j) == p ensures t[Parent(p)].time <= t[j].time {
        assert h[Parent(p)].time <= h[p].time;
        if j != i { assert h[p].time <= h[j].time; }
      }
    }
  }

  /** Sifting up repairs the heap, and moves the root only for an entry due strictly before it. */
  lemma {:induction false} SiftUpHeap(h: Heap, i: nat)
    requires i < |h| && HeapButUp(h, i)
    ensures IsHeap(SiftUp(h, i))
    ensures SiftUp(h, i)[0] == if h[i].time < h[0].time then h[i] else h[0]
    decreases i
  {
    if i > 0 {
      if h[i].time < h[Parent(i)].time {
        SiftUpStep(h, i);
        SiftUpHeap(Swap(h, i, Parent(i)), Parent(i));
      }
      RootBelow(h, i, Parent(i));
    }
  }

  lemma {:induction false} RootBelow(h: Heap, k: nat, i: nat)
    requires i < k < |h| && HeapButUp(h, k)
    ensures h[0].time <= h[i].time
    decreases i
  {
    if i > 0 { RootBelow(h, k, Parent(i)); }
  }

  /** A push adds the entry; it becomes the root only if it is due strictly before the old one. */
  lemma PushProperties(h: Heap, x: Entry)
    requires IsHeap(h)
    ensures IsHeap(Push(h, x)) && Push(h, x) != []
    ensures multiset(Push(h, x)) == multiset(h) + multiset{x}
    ensures Push(h, x)[0] == if h == [] || x.time < h[0].time then x else h[0]
  {
    var g := h + [x];
    assert HeapButUp(g, |h|) by {
      forall i | 0 < i < |g| && i != |h| ensures g[Parent(i)].time <= g[i].time {
        assert h[Parent(i)].time <= h[i].time;
      }
    }
    SiftUpHeap(g, |h|);
  }

  // ----- Pop -----

  /** A heap except that entry k may be due after its children. */
  ghost predicate HeapButDown(h: Heap, k: nat) {
    && (forall i | 0 < i < |h| && Parent(i) != k :: h[Parent(i)].time <= h[i].time)
    && (k > 0 ==> forall i | 0 < i < |h| && Parent(i) == k :: h[Parent(k)].time <= h[i].time)
  }

  lemma SiftDownStep(h: Heap, i: nat)
    requires i < |h| && HeapButDown(h, i) && h[EarlierChild(h, i)].time < h[i].time
    ensures HeapButDown(Swap(h, i, EarlierChild(h, i)), EarlierChild(h, i))
  {
    var c := EarlierChild(h, i);
    var t := Swap(h, i, c);
    forall j | 0 < j < |t| && Parent(j) != c ensures t[Parent(j)].time <= t[j].time {
      if j == i {
        assert h[Parent(i)].time <= h[c].time;
      } else if Parent(j) == i {
        assert t[i] == h[c];
      } else {
        assert h[Parent(j)].time <= h[j].time;
      }
    }
    forall j | 0 < j < |t| && Parent(j) == c ensures t[Parent(c)].time <= t[j].time {
      assert h[Parent(j)].time <= h[j].time;
    }
  }

  lemma {:induction false} SiftDownHeap(h: Heap, i: nat)
    requires i < |h| && HeapButDown(h, i)
    ensures IsHeap(SiftDown(h, i))
    decreases |h| - i
  {
    var c := EarlierChild(h, i);
    if h[c].time < h[i].time {
      SiftDownStep(h, i);
      SiftDownHeap(Swap(h, i, c), c);
    } else {
      forall j | 0 < j < |h| ensures h[Parent(j)].time <= h[j].time {
        if Parent(j) == i { assert h[c].time <= h[j].time; }
      }
    }
  }

  lemma PopBag(h: Heap)
    requires |h| > 1
    ensures multiset(h) == multiset([h[|h| - 1]] + h[1..|h| - 1]) + multiset{h[0]}
  {
    assert h == [h[0]] + h[1..|h| - 1] + [h[|h| - 1]];
  }

  /** A pop removes exactly the root. */
  lemma PopProperties(h: Heap)
    requires IsHeap(h) && h != []
    ensures IsHeap(Pop(h))
    ensures multiset(h) == multiset(Pop(h)) + multiset{h[0]}
  {
    if |h| == 1 {
      assert h == [h[0]];
    } else {
      PopBag(h);
      var g := [h[|h| - 1]] + h[1..|h| - 1];
      forall i | 0 < i < |g| && Parent(i) != 0 ensures g[Parent(i)].time <= g[i].time {
        assert h[Parent(i)].time <= h[i].time;
      }
      SiftDownHeap(g, 0);
    }
  }

  // ----- The imperative queue -----

  /** std::priority_queue<DelayedExecutable>, with the loops of push and pop. */
  class PriorityQueue {
    var entries: Heap

    constructor ()
      ensures entries == []
    {
      entries := [];
    }

    method Add(x: Entry)
      modifies this
      ensures entries == Push(old(entries), x)
    {
      ghost var target := Push(entries, x);
      entries := entries + [x];
      var i := |entries| - 1;
      while i > 0 && entries[i].time < entries[Parent(i)].time
        invariant 0 <= i < |entries|
        invariant SiftUp(entries, i) == target
        decreases i
      {
        entries, i := Swap(entries, i, Parent(i)), Parent(i);
      }
    }

    method RemoveTop()
      requires entries != []
      modifies this
      ensures entries == Pop(old(entries))
    {
      if |entries| == 1 {
        entries := [];
        return;
      }
      entries := [entries[|entries| - 1]] + entries[1..|entries| - 1];
      var i := 0;
      var c := EarlierChild(entries, i);
      while entries[c].time < entries[i].time
        invariant 0 <= i < |entries| && c == EarlierChild(entries, i)
        invariant SiftDown(entries, i) == Pop(old(entries))
        decreases |entries| - i
      {
        entries, i := Swap(entries, i, c), c;
        c := EarlierChild(entries, i);
      }
    }
  }
}
