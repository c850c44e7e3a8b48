/** What sorting and partitioning mean for an arbitrary strict order. */
module Ordering {

  /** The demand on operator<: irreflexive and transitive. */
  ghost predicate StrictOrder<T(!new)>(lt: (T, T) -> bool) {
    && (forall a :: !lt(a, a))
    && (forall a, b, c :: lt(a, b) && lt(b, c) ==> lt(a, c))
  }

  /** Elements that neither precede the other are equal: what makes the sorted list unique. */
  ghost predicate TotalOrder<T(!new)>(lt: (T, T) -> bool) {
    forall a, b :: lt(a, b) || lt(b, a) || a == b
  }

  /** No element precedes an element that stands before it. */
  ghost predicate Sorted<T>(lt: (T, T) -> bool, s: seq<T>) {
    forall i, j | 0 <= i < j < |s| :: !lt(s[j], s[i])
  }

  ghost predicate Permutes<T>(a: seq<T>, b: seq<T>) {
    multiset(a) == multiset(b)
  }

  ghost predicate SortedPermutation<T>(lt: (T, T) -> bool, result: seq<T>, input: seq<T>) {
    Sorted(lt, result) && Permutes(result, input)
  }

  /** What std::partition promises: the two parts, each in any order, split the input at the pivot. */
  ghost predicate Partition<T>(lt: (T, T) -> bool, pivot: T, input: seq<T>, lower: seq<T>, higher: seq<T>) {
    && Permutes(lower + higher, input)
    && (forall i | 0 <= i < |lower| :: lt(lower[i], pivot))
    && (forall i | 0 <= i < |higher| :: !lt(higher[i], pivot))
  }

  lemma PermutationMembers<T>(a: seq<T>, b: seq<T>)
    requires Permutes(a, b)
    ensures |a| == |b|
    ensures forall x :: x in a <==> x in b
  {
    assert |multiset(a)| == |a| && |multiset(b)| == |b|;
    forall x ensures x in a <==> x in b {
      assert x in a <==> x in multiset(a);
      assert x in b <==> x in multiset(b);
    }
  }

  /** Joining the two sorted parts around the pivot sorts the whole. */
  lemma SortedJoin<T(!new)>(lt: (T, T) -> bool, pivot: T, rest: seq<T>, lower: seq<T>, higher: seq<T>,
                            low: seq<T>, high: seq<T>)
    requires StrictOrder(lt)
    requires Partition(lt, pivot, rest, lower, higher)
    requires SortedPermutation(lt, low, lower) && SortedPermutation(lt, high, higher)
    ensures SortedPermutation(lt, low + [pivot] + high, [pivot] + rest)
  {
    PermutationMembers(low, lower);
    PermutationMembers(high, higher);
    var all := low + [pivot] + high;
    forall i, j | 0 <= i < j < |all| ensures !lt(all[j], all[i]) {
      if i < |low| { assert all[i] in lower; }
      if j > |low| { assert all[j] in higher; }
    }
    assert multiset(lower + higher) == multiset(lower) + multiset(higher);
    assert multiset([pivot] + rest) == multiset([pivot]) + multiset(rest);
  }

  lemma WithoutFirst<T>(a: seq<T>, b: seq<T>)
    requires a != [] && b != [] && a[0] == b[0] && Permutes(a, b)
    ensures Permutes(a[1..], b[1..])
  {
    assert a == [a[0]] + a[1..] && b == [b[0]] + b[1..];
    assert multiset(a[1..]) == multiset(a) - multiset{a[0]};
    assert multiset(b[1..]) == multiset(b) - multiset{b[0]};
  }

  lemma SameFirst<T(!new)>(lt: (T, T) -> bool, a: seq<T>, b: seq<T>)
    requires StrictOrder(lt) && TotalOrder(lt)
    requires Sorted(lt, a) && Sorted(lt, b) && a != [] && b != [] && a[0] in b && b[0] in a
    ensures a[0] == b[0]
  {
    var i :| 0 <= i < |b| && b[i] == a[0];
    var j :| 0 <= j < |a| && a[j] == b[0];
    assert !lt(a[0], b[0]) && !lt(b[0], a[0]);
  }

  /** For a total order there is only one sorted permutation. */
  lemma {:induction false} SortedUnique<T(!new)>(lt: (T, T) -> bool, a: seq<T>, b: seq<T>)
    requires StrictOrder(lt) && TotalOrder(lt)
    requires Sorted(lt, a) && Sorted(lt, b) && Permutes(a, b)
    ensures a == b
  {
    PermutationMembers(a, b);
    if a != [] {
      assert a[0] in b && b[0] in a;
      SameFirst(lt, a, b);
      WithoutFirst(a, b);
      assert Sorted(lt, a[1..]) && Sorted(lt, b[1..]);
      hide *;
      SortedUnique(lt, a[1..], b[1..]);
      assert a == [a[0]] + a[1..] && b == [b[0]] + b[1..];
    }
  }
}
