/** seq_quick_sort (executor/test_threadpool.cpp): the sequential sort the parallel one is compared with. */
module SequentialSort {
  import opened Ordering

  /** std::iter_swap. */
  method Exchange<T>(a: array<T>, i: nat, j: nat)
    requires i < j < a.Length
    modifies a
    ensures a[i] == old(a[j]) && a[j] == old(a[i])
    ensures forall k | 0 <= k < a.Length && k != i && k != j :: a[k] == old(a[k])
    ensures Permutes(a[..], old(a[..]))
  {
    a[i], a[j] := a[j], a[i];
  }

  /** std::partition over the whole list, as a two-ended exchange; returns the divide point. */
  method PartitionInPlace<T(!new)>(lt: (T, T) -> bool, pivot: T, a: array<T>) returns (divide: nat)
    modifies a
    ensures divide <= a.Length
    ensures Partition(lt, pivot, old(a[..]), a[..divide], a[divide..])
  {
    ghost var before := a[..];
    var first, last: nat := 0, a.Length;
    while first < last
      invariant first <= last <= a.Length
      invariant forall i | 0 <= i < first :: lt(a[i], pivot)
      invariant forall i | last <= i < a.Length :: !lt(a[i], pivot)
      invariant Permutes(a[..], before)
      decreases last - first
    {
      if lt(a[first], pivot) {
        first := first + 1;
      } else if !lt(a[last - 1], pivot) {
        last := last - 1;
      } else {
        Exchange(a, first, last - 1);
        first, last := first + 1, last - 1;
      }
    }
    divide := first;
    assert a[..divide] + a[divide..] == a[..];
  }

  method SeqQuickSort<T(!new,0)>(lt: (T, T) -> bool, input: seq<T>) returns (result: seq<T>)
    requires StrictOrder(lt)
    ensures SortedPermutation(lt, result, input)
    decreases |input|
  {
    if input == [] {
      return input;
    }
    var pivot := input[0];
    var rest := input[1..];
    assert input == [pivot] + rest;
    var a := new T[|rest|](i requires 0 <= i < |rest| => rest[i]);
    assert a[..] == rest;
    var divide := PartitionInPlace(lt, pivot, a);
    var lower, higher := a[..divide], a[divide..];
    PermutationMembers(lower + higher, rest);
    var lowerSorted := SeqQuickSort(lt, lower);
    var higherSorted := SeqQuickSort(lt, higher);
    SortedJoin(lt, pivot, rest, lower, higher, lowerSorted, higherSorted);
    result := lowerSorted + [pivot] + higherSorted;
  }
}
