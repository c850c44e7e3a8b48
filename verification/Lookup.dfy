/**
 Parallel lookups (coroutine/cache/prefetch.h, coroutine/cache/prefetcht0.cpp, coroutine/test/prefetch_test1.cpp):
 binary search, the partition of the targets by residue, and the two shared counters a spinning reader relies on.
 */
module Lookup {
  import opened Sums
  import opened Ordering

  // ----- Binary search -----

  predicate IntLess(a: int, b: int) {
    a < b
  }

  /** Sorted means ascending. */
  lemma AscendingExactly(nums: seq<int>)
    ensures Sorted(IntLess, nums) <==> forall i, j | 0 <= i < j < |nums| :: nums[i] <= nums[j]
  {
    if Sorted(IntLess, nums) {
      forall i, j | 0 <= i < j < |nums| ensures nums[i] <= nums[j] { assert !IntLess(nums[j], nums[i]); }
    }
  }

  /** The search among the `len` numbers from `first` on. */
  function SearchFrom(nums: seq<int>, val: int, first: nat, len: nat): int
    requires first + len <= |nums|
    decreases len
  {
    if len == 0 then -1
    else
      var half := len / 2;
      if nums[first + half] == val then first + half
      else if nums[first + half] < val then SearchFrom(nums, val, first + half + 1, len - half - 1)
      else SearchFrom(nums, val, first, half)
  }

  function Search(nums: seq<int>, val: int): int {
    SearchFrom(nums, val, 0, |nums|)
  }

  ghost predicate Lacks(nums: seq<int>, val: int, a: nat, b: nat)
    requires b <= |nums|
  {
    forall i | a <= i < b :: nums[i] != val
  }

  /** An index of the value, or -1; in a sorted sequence -1 means that it is absent. */
  lemma SearchFinds(nums: seq<int>, val: int)
    ensures var r := Search(nums, val); -1 <= r < |nums| && (r >= 0 ==> nums[r] == val)
    ensures Sorted(IntLess, nums) ==> (Search(nums, val) == -1 <==> val !in nums)
  {
    hide Sorted, SearchFrom;
    SearchFromFinds(nums, val, 0, |nums|);
  }

  /** One round of the search. */
  lemma SearchRound(nums: seq<int>, val: int, first: nat, len: nat)
    requires first + len <= |nums|
    ensures var r, half := SearchFrom(nums, val, first, len), len / 2;
            if len == 0 then r == -1
            else half < len
                 && r == if nums[first + half] == val then first + half
                         else if nums[first + half] < val then SearchFrom(nums, val, first + half + 1, len - half - 1)
                         else SearchFrom(nums, val, first, half)
  {
  }

  lemma {:induction false} SearchFromFinds(nums: seq<int>, val: int, first: nat, len: nat)
    requires first + len <= |nums|
    ensures var r := SearchFrom(nums, val, first, len); r == -1 || (first <= r < first + len && nums[r] == val)
    ensures Sorted(IntLess, nums) && SearchFrom(nums, val, first, len) == -1 ==> Lacks(nums, val, first, first + len)
    decreases len
  {
    SearchRound(nums, val, first, len);
    hide Sorted, SearchFrom;
    var middle := first + len / 2;
    if len > 0 && nums[middle] < val {
      SearchFromFinds(nums, val, middle + 1, first + len - middle - 1);
      if Sorted(IntLess, nums) { NotBefore(nums, val, first, middle); }
    } else if len > 0 && nums[middle] > val {
      SearchFromFinds(nums, val, first, middle - first);
      if Sorted(IntLess, nums) { NotBehind(nums, val, middle, first + len); }
    }
  }

  lemma NotBefore(nums: seq<int>, val: int, first: nat, middle: nat)
    requires Sorted(IntLess, nums) && middle < |nums| && nums[middle] < val
    ensures Lacks(nums, val, first, middle + 1)
  {
    forall i | first <= i <= middle ensures nums[i] != val {
      assert i < middle ==> !IntLess(nums[middle], nums[i]);
    }
  }

  lemma NotBehind(nums: seq<int>, val: int, middle: nat, end: nat)
    requires Sorted(IntLess, nums) && middle < end <= |nums| && nums[middle] > val
    ensures Lacks(nums, val, middle, end)
  {
    forall i | middle <= i < end ensures nums[i] != val {
      assert middle < i ==> !IntLess(nums[i], nums[middle]);
    }
  }

  method BinarySearch(nums: seq<int>, val: int) returns (r: int)
    ensures r == Search(nums, val)
    ensures -1 <= r < |nums| && (r >= 0 ==> nums[r] == val)
    ensures Sorted(IntLess, nums) ==> (r == -1 <==> val !in nums)
  {
    hide Sorted;
    SearchFinds(nums, val);
    var first: nat, len: nat := 0, |nums|;
    while len > 0
      invariant first + len <= |nums| && SearchFrom(nums, val, first, len) == Search(nums, val)
      decreases len
    {
      var half := len / 2;
      var middle := first + half;
      if nums[middle] < val {
        first, len := middle + 1, len - half - 1;
      } else {
        len := half;
      }
      if nums[middle] == val {
        return middle;
      }
    }
    return -1;
  }

  // ----- The partition of the targets -----

  /** The search does not find the target. */
  function Miss(nums: seq<int>, target: int): nat {
    if Search(nums, target) == -1 then 1 else 0
  }

  function AbsentFrom(nums: seq<int>, targets: seq<int>, i: nat): nat
    decreases |targets| - i
  {
    if i >= |targets| then 0 else (if targets[i] in nums then 0 else 1) + AbsentFrom(nums, targets, i + 1)
  }

  /** In a sorted sequence the misses are the absent targets. */
  lemma {:induction false} MissesAreAbsent(nums: seq<int>, targets: seq<int>, i: nat)
    requires Sorted(IntLess, nums)
    ensures MissesFrom(nums, targets, i) == AbsentFrom(nums, targets, i)
    decreases |targets| - i
  {
    if i < |targets| {
      SearchFinds(nums, targets[i]);
      MissesAreAbsent(nums, targets, i + 1);
    }
  }

  /** How many of the targets from index i on the search misses. */
  function MissesFrom(nums: seq<int>, targets: seq<int>, i: nat): nat
    decreases |targets| - i
  {
    if i >= |targets| then 0 else Miss(nums, targets[i]) + MissesFrom(nums, targets, i + 1)
  }

  /** How many of the targets at i, i + stride, i + 2 * stride, ... it misses. */
  function StrideMisses(nums: seq<int>, targets: seq<int>, stride: nat, i: nat): nat
    requires stride > 0
    decreases |targets| - i
  {
    if i >= |targets| then 0 else Miss(nums, targets[i]) + StrideMisses(nums, targets, stride, i + stride)
  }

  /** One part: every stride-th target, starting at `remain`. */
  method CountPart(nums: seq<int>, targets: seq<int>, fraction: nat, remain: nat) returns (notFound: nat)
    requires fraction > 0
    ensures notFound == StrideMisses(nums, targets, fraction, remain)
  {
    notFound := 0;
    var i := remain;
    while i < |targets|
      invariant notFound + StrideMisses(nums, targets, fraction, i) == StrideMisses(nums, targets, fraction, remain)
      decreases |targets| - i
    {
      var r := BinarySearch(nums, targets[i]);
      if r == -1 {
        notFound := notFound + 1;
      }
      i := i + fraction;
    }
  }

  /** The parts from i to i + n - 1 together. */
  function Window(nums: seq<int>, targets: seq<int>, stride: nat, i: nat, n: nat): nat
    requires stride > 0
  {
    if n == 0 then 0 else Window(nums, targets, stride, i, n - 1) + StrideMisses(nums, targets, stride, i + n - 1)
  }

  lemma {:induction false} WindowShift(nums: seq<int>, targets: seq<int>, stride: nat, i: nat, n: nat)
    requires stride > 0
    ensures StrideMisses(nums, targets, stride, i) + Window(nums, targets, stride, i + 1, n)
         == Window(nums, targets, stride, i, n) + StrideMisses(nums, targets, stride, i + n)
  {
    if n > 0 { WindowShift(nums, targets, stride, i, n - 1); }
  }

  /** `stride` neighbouring parts cover every target from the first one on exactly once. */
  lemma {:induction false} WindowCovers(nums: seq<int>, targets: seq<int>, stride: nat, i: nat)
    requires stride > 0
    ensures Window(nums, targets, stride, i, stride) == MissesFrom(nums, targets, i)
    decreases |targets| - i
  {
    if i >= |targets| {
      WindowEmpty(nums, targets, stride, i, stride);
    } else {
      WindowCovers(nums, targets, stride, i + 1);
      WindowShift(nums, targets, stride, i, stride);
    }
  }

  lemma {:induction false} WindowEmpty(nums: seq<int>, targets: seq<int>, stride: nat, i: nat, n: nat)
    requires stride > 0 && i >= |targets|
    ensures Window(nums, targets, stride, i, n) == 0
  {
    if n > 0 { WindowEmpty(nums, targets, stride, i, n - 1); }
  }

  /** The misses of all parts. */
  function Parts(nums: seq<int>, targets: seq<int>, fraction: nat): seq<nat>
    requires fraction > 0
  {
    seq(fraction, r requires 0 <= r < fraction => StrideMisses(nums, targets, fraction, r))
  }

  ghost function Size(): nat -> int {
    (m: nat) => m as int
  }

  ghost function Total(parts: seq<nat>): int {
    Sum(Size(), parts)
  }

  lemma {:induction false} TotalIsWindow(nums: seq<int>, targets: seq<int>, fraction: nat, n: nat)
    requires n <= fraction && fraction > 0
    ensures Total(Parts(nums, targets, fraction)[..n]) == Window(nums, targets, fraction, 0, n)
  {
    if n > 0 {
      TotalIsWindow(nums, targets, fraction, n - 1);
      assert Parts(nums, targets, fraction)[..n][..n - 1] == Parts(nums, targets, fraction)[..n - 1];
    }
  }

  /** For every number of parts, their misses add up to those of all targets. */
  lemma PartsAddUp(nums: seq<int>, targets: seq<int>, fraction: nat)
    requires fraction > 0
    ensures Total(Parts(nums, targets, fraction)) == MissesFrom(nums, targets, 0)
  {
    TotalIsWindow(nums, targets, fraction, fraction);
    assert Parts(nums, targets, fraction)[..fraction] == Parts(nums, targets, fraction);
    WindowCovers(nums, targets, fraction, 0);
  }
}
