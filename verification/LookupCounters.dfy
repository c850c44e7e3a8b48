/**
 The two shared counters of the parallel lookups, as a step system with sequentially consistent atomics:
 every part adds its misses to one counter and then counts down the other; the submitting thread spins
 until the countdown is 0 and then reads the misses.
 */
module LookupCounters {
  import opened Words
  import opened Sums
  import opened Ordering
  import opened Lookup

  /** Where std::atomic<int> changes sign. */
  const INT_LIMIT: nat := 0x8000_0000

  /**
   parts: the misses each part will find; start: the initial countdown; amount: what fetch_add adds to it,
   modulo 2^32.
   */
  datatype Config = Config(parts: seq<nat>, start: nat, amount: nat)

  datatype Stage = Unsubmitted | Searching | Counted | Done

  datatype Reader = Submitting(next: nat) | Spinning | SawZero | Returned(value: int)

  datatype State = State(stages: seq<Stage>, notFound: int, countDown: nat, reader: Reader)

  datatype Step =
    | SubmitPart              // the main thread submits the next part, or starts spinning
    | AddMisses(part: nat)    // not_found_cnt.fetch_add
    | CountDown(part: nat)    // count_down.fetch_add
    | Poll                    // the main thread loads count_down
    | Read                    // the main thread loads not_found_cnt

  function Init(c: Config): State {
    State(seq(|c.parts|, i => Unsubmitted), 0, c.start % W32, Submitting(0))
  }

  predicate Enabled(c: Config, s: State, step: Step) {
    match step
    case SubmitPart => s.reader.Submitting? && s.reader.next <= |s.stages|
    case AddMisses(p) => p < |s.stages| && p < |c.parts| && s.stages[p].Searching?
    case CountDown(p) => p < |s.stages| && s.stages[p].Counted?
    case Poll => s.reader.Spinning?
    case Read => s.reader.SawZero?
  }

  function Apply(c: Config, s: State, step: Step): State
    requires Enabled(c, s, step)
  {
    match step
    case SubmitPart =>
      if s.reader.next == |s.stages| then s.(reader := Spinning)
      else s.(stages := s.stages[s.reader.next := Searching], reader := Submitting(s.reader.next + 1))
    case AddMisses(p) => s.(stages := s.stages[p := Counted], notFound := s.notFound + c.parts[p])
    case CountDown(p) => s.(stages := s.stages[p := Done], countDown := (s.countDown + c.amount) % W32)
    case Poll => if s.countDown == 0 then s.(reader := SawZero) else s
    case Read => s.(reader := Returned(s.notFound))
  }

  predicate CanRun(c: Config, s: State, steps: seq<Step>)
    decreases steps
  {
    steps == [] || (Enabled(c, s, steps[0]) && CanRun(c, Apply(c, s, steps[0]), steps[1..]))
  }

  function Run(c: Config, s: State, steps: seq<Step>): State
    requires CanRun(c, s, steps)
    decreases steps
  {
    if steps == [] then s else Run(c, Apply(c, s, steps[0]), steps[1..])
  }

  ghost predicate Reached(c: Config, steps: seq<Step>, s: State) {
    CanRun(c, Init(c), steps) && s == Run(c, Init(c), steps)
  }

  // ----- The invariant -----

  /** The misses of the parts that have added theirs, and the number of parts that have counted down. */
  function Added(parts: seq<nat>, stages: seq<Stage>): nat
    requires |parts| == |stages|
  {
    if parts == [] then 0
    else Added(parts[..|parts| - 1], stages[..|stages| - 1])
         + if stages[|stages| - 1].Counted? || stages[|stages| - 1].Done? then parts[|parts| - 1] else 0
  }

  function Finished(stages: seq<Stage>): nat {
    if stages == [] then 0 else Finished(stages[..|stages| - 1]) + if stages[|stages| - 1].Done? then 1 else 0
  }

  lemma {:induction false} StageChange(parts: seq<nat>, stages: seq<Stage>, p: nat, x: Stage)
    requires |parts| == |stages| && p < |stages|
    ensures Finished(stages[p := x])
              == Finished(stages) - (if stages[p].Done? then 1 else 0) + (if x.Done? then 1 else 0)
    ensures Added(parts, stages[p := x]) == Added(parts, stages)
      - (if stages[p].Counted? || stages[p].Done? then parts[p] else 0)
          + (if x.Counted? || x.Done? then parts[p] else 0)
  {
    var last := |stages| - 1;
    if p == last {
      assert stages[p := x][..last] == stages[..last];
    } else {
      assert stages[p := x][..last] == stages[..last][p := x];
      StageChange(parts[..last], stages[..last], p, x);
    }
  }

  lemma {:induction false} AllFinished(parts: seq<nat>, stages: seq<Stage>)
    requires |parts| == |stages|
    ensures Finished(stages) <= |stages| && Added(parts, stages) <= Total(parts)
    ensures Finished(stages) == |stages| ==> Added(parts, stages) == Total(parts)
  {
    if parts != [] { AllFinished(parts[..|parts| - 1], stages[..|stages| - 1]); }
  }

  lemma {:induction false} NothingYet(parts: seq<nat>)
    ensures Added(parts, seq(|parts|, i => Unsubmitted)) == 0 && Finished(seq(|parts|, i => Unsubmitted)) == 0
  {
    if parts != [] {
      NothingYet(parts[..|parts| - 1]);
      assert seq(|parts|, i => Unsubmitted)[..|parts| - 1] == seq(|parts| - 1, i => Unsubmitted);
    }
  }

  /** The countdown after k parts have counted down. */
  function After(c: Config, k: nat): nat {
    (c.start + k * c.amount) % W32
  }

  /** The countdown is 0 exactly when every part has counted down. */
  ghost predicate Exact(c: Config) {
    forall k: nat | k <= |c.parts| :: After(c, k) == 0 <==> k == |c.parts|
  }

  ghost predicate Inv(c: Config, s: State) {
    && |s.stages| == |c.parts|
    && (s.reader.Submitting? ==> forall p | s.reader.next <= p < |s.stages| :: s.stages[p].Unsubmitted?)
    && s.notFound == Added(c.parts, s.stages)
    && s.countDown == After(c, Finished(s.stages))
    && (Exact(c) && (s.reader.SawZero? || s.reader.Returned?) ==> Finished(s.stages) == |c.parts|)
    && (s.reader.Returned? ==> s.reader.value <= s.notFound)
    && (Exact(c) && s.reader.Returned? ==> s.reader.value == Total(c.parts))
  }

  lemma OneMore(c: Config, k: nat)
    ensures (After(c, k) + c.amount) % W32 == After(c, k + 1)
  {
    var x := c.start + k * c.amount;
    assert c.start + (k + 1) * c.amount == x + c.amount;
    ModAdd(x, c.amount, W32);
  }

  lemma ModAdd(x: nat, y: nat, m: nat)
    requires m > 0
    ensures (x % m + y) % m == (x + y) % m
  {
    ModPlusMultiple(x % m + y, x / m, m);
    assert x == m * (x / m) + x % m;
  }

  lemma Products(x: int, y: int)
    ensures x >= 1 && y >= 1 ==> x * y >= x && x * y >= y
    ensures x >= 1 && y <= -1 ==> x * y <= -x
    ensures x >= 0 && y >= 0 ==> x * y >= 0
  {
  }

  /** A multiple of d strictly between -d and d is 0. */
  lemma SmallMultiple(d: int, k: int)
    requires d > 0 && -d < d * k < d
    ensures k == 0
  {
    Products(d, k);
  }

  lemma QuotientAndRest(x: nat, d: nat, q: int, r: nat)
    requires r < d && x == d * q + r
    ensures x / d == q && x % d == r
  {
    assert x == d * (x / d) + x % d;
    assert d * (q - x / d) == d * q - d * (x / d);
    SmallMultiple(d, q - x / d);
  }

  lemma ModPlusMultiple(x: nat, k: nat, m: nat)
    requires m > 0
    ensures (x + m * k) % m == x % m
  {
    assert x == m * (x / m) + x % m;
    assert m * (x / m + k) == m * (x / m) + m * k;
    assert m * k >= 0;
    QuotientAndRest(x + m * k, m, x / m + k, x % m);
  }

  lemma CountDownInv(c: Config, s: State, p: nat)
    requires Inv(c, s) && Enabled(c, s, CountDown(p))
    ensures Inv(c, Apply(c, s, CountDown(p)))
  {
    StageChange(c.parts, s.stages, p, Done);
    OneMore(c, Finished(s.stages));
    AllFinished(c.parts, s.stages[p := Done]);
  }

  lemma StepInv(c: Config, s: State, step: Step)
    requires Inv(c, s) && Enabled(c, s, step)
    ensures Inv(c, Apply(c, s, step))
  {
    AllFinished(c.parts, s.stages);
    match step
    case SubmitPart =>
      if s.reader.next < |s.stages| {
        StageChange(c.parts, s.stages, s.reader.next, Searching);
      }
    case AddMisses(p) => StageChange(c.parts, s.stages, p, Counted);
    case CountDown(p) => CountDownInv(c, s, p);
    case Poll =>
    case Read =>
  }

  lemma {:induction false} RunInv(c: Config, s: State, steps: seq<Step>)
    requires Inv(c, s) && CanRun(c, s, steps)
    ensures Inv(c, Run(c, s, steps))
    decreases steps
  {
    if steps != [] {
      StepInv(c, s, steps[0]);
      RunInv(c, Apply(c, s, steps[0]), steps[1..]);
    }
  }

  lemma ReachedInv(c: Config, steps: seq<Step>, s: State)
    requires Reached(c, steps, s)
    ensures Inv(c, s)
  {
    NothingYet(c.parts);
    RunInv(c, Init(c), steps);
  }

  // ----- The arithmetic of the countdowns -----

  /** prefetcht0: one part per target, each adds -1. */
  function Single(nums: seq<int>, targets: seq<int>): Config {
    Config(seq(|targets|, i requires 0 <= i < |targets| => Miss(nums, targets[i])), |targets|, W32 - 1)
  }

  /** -targets.size() / fraction: negation and division in 64-bit unsigned arithmetic. */
  function Decrement(size: nat, fraction: nat): nat
    requires size < W64 && fraction > 0
  {
    (W64 - size) % W64 / fraction
  }

  /** prefetch_test1: `fraction` parts by residue, each adds the truncated decrement. */
  function Strided(nums: seq<int>, targets: seq<int>, fraction: nat): Config
    requires |targets| < W64 && fraction > 0
  {
    Config(Parts(nums, targets, fraction), |targets|, Decrement(|targets|, fraction) % W32)
  }

  lemma SingleExact(nums: seq<int>, targets: seq<int>)
    requires |targets| < INT_LIMIT
    ensures Exact(Single(nums, targets))
  {
    var c := Single(nums, targets);
    forall k: nat | k <= |targets| ensures After(c, k) == |targets| - k {
      assert c.start + k * (W32 - 1) == (|targets| - k) + W32 * k;
      ModPlusMultiple(|targets| - k, k, W32);
    }
  }

  /** The truncation of the decrement to 32 bits does not matter. */
  lemma AfterUntruncated(start: nat, q: nat, k: nat)
    ensures (start + k * (q % W32)) % W32 == (start + k * q) % W32
  {
    assert q == W32 * (q / W32) + q % W32;
    assert start + k * q == (start + k * (q % W32)) + W32 * (k * (q / W32)) by {
      assert k * q == k * (q % W32) + k * (W32 * (q / W32));
      assert k * (W32 * (q / W32)) == W32 * (k * (q / W32));
    }
    ModPlusMultiple(start + k * (q % W32), k * (q / W32), W32);
  }

  /** After all parts the countdown is 0 if and only if the number of parts divides 2^64 - size. */
  lemma EndsAtZeroExactly(nums: seq<int>, targets: seq<int>, fraction: nat)
    requires 0 < |targets| < INT_LIMIT && 0 < fraction < INT_LIMIT
    ensures After(Strided(nums, targets, fraction), fraction) == 0 <==> (W64 - |targets|) % fraction == 0
  {
    var n := W64 - |targets|;
    var q, r := n / fraction, n % fraction;
    assert n % W64 == n;
    AfterUntruncated(|targets|, q, fraction);
    EndValue(|targets|, fraction * q, r);
  }

  lemma EndValue(size: nat, taken: nat, r: nat)
    requires W64 - size == taken + r && r < W32
    ensures (size + taken) % W32 == if r == 0 then 0 else W32 - r
  {
    if r == 0 {
      BlocksVanish(size + taken, 0, W32);
    } else {
      BlocksVanish(size + taken, W32 - r, W32 - 1);
    }
  }

  /** A number of parts that divides 2^32 (a power of two) and the number of targets counts down exactly. */
  lemma StridedExact(nums: seq<int>, targets: seq<int>, fraction: nat)
    requires 0 < |targets| < INT_LIMIT && fraction > 0
    requires W32 % fraction == 0 && |targets| % fraction == 0
    ensures Exact(Strided(nums, targets, fraction))
  {
    var c := Strided(nums, targets, fraction);
    forall k: nat | k <= fraction ensures After(c, k) == 0 <==> k == fraction {
      ExactQuotient(W32, fraction);
      ExactQuotient(|targets|, fraction);
      StridedAfter(|targets|, fraction, W32 / fraction, |targets| / fraction, k);
    }
  }

  lemma ExactQuotient(x: nat, d: nat)
    requires d > 0 && x % d == 0
    ensures d * (x / d) == x
  {
  }

  /** With m targets a part, after k parts the countdown is the number of targets of the other parts. */
  lemma StridedAfter(size: nat, fraction: nat, g: nat, m: nat, k: nat)
    requires 0 < size < INT_LIMIT && fraction > 0 && k <= fraction
    requires fraction * g == W32 && fraction * m == size
    ensures (size + k * (Decrement(size, fraction) % W32)) % W32 == (fraction - k) * m
    ensures (fraction - k) * m == 0 <==> k == fraction
  {
    DecrementValue(size, fraction, g, m);
    var q := Decrement(size, fraction);
    AfterUntruncated(size, q, k);
    Regroup(size, fraction, g, m, q, k);
    RestOfTargets(size, fraction, m, k);
    Products(k, g);
    BlocksVanish(size + k * q, (fraction - k) * m, k * g);
  }

  lemma BlocksVanish(x: nat, rest: nat, blocks: nat)
    requires x == rest + W32 * blocks && rest < W32
    ensures x % W32 == rest
  {
  }

  lemma DecrementValue(size: nat, fraction: nat, g: nat, m: nat)
    requires 0 < size < INT_LIMIT && fraction > 0 && fraction * g == W32 && fraction * m == size
    ensures g * W32 - m >= 0 && Decrement(size, fraction) == g * W32 - m
  {
    var q := g * W32 - m;
    assert fraction * q == fraction * (g * W32) - fraction * m;
    assert fraction * (g * W32) == (fraction * g) * W32;
    assert W32 * W32 == W64;
    QuotientAndRest(W64 - size, fraction, q, 0);
  }

  lemma Regroup(size: nat, fraction: nat, g: nat, m: nat, q: nat, k: nat)
    requires fraction * m == size && q == g * W32 - m
    ensures size + k * q == (fraction - k) * m + W32 * (k * g)
  {
    assert k * q == k * (g * W32) - k * m;
    assert k * (g * W32) == W32 * (k * g);
    assert (fraction - k) * m == fraction * m - k * m;
  }

  lemma RestOfTargets(size: nat, fraction: nat, m: nat, k: nat)
    requires fraction * m == size && size > 0 && k <= fraction
    ensures 0 <= (fraction - k) * m <= size
    ensures (fraction - k) * m == 0 <==> k == fraction
  {
    assert (fraction - k) * m == fraction * m - k * m;
    Products(k, m);
    Products(fraction - k, m);
    assert m > 0;
  }

  // ----- Exactly when the countdown is exact -----

  predicate PowerOfTwo(m: nat) {
    m == 1 || (m % 2 == 0 && m > 0 && PowerOfTwo(m / 2))
  }

  /** The least number of decrements that sum to a multiple of m: m without the factors of two that q has. */
  function Period(q: nat, m: nat): (r: nat)
    requires m > 0
    ensures r > 0
    decreases m
  {
    if m > 1 && q % 2 == 0 then Period(q / 2, m / 2) else m
  }

  lemma DoubleMod(x: nat, h: nat)
    requires h > 0
    ensures (2 * x) % (2 * h) == 2 * (x % h)
  {
    assert x == h * (x / h) + x % h;
    assert 2 * h * (x / h) == 2 * (h * (x / h));
    QuotientAndRest(2 * x, 2 * h, x / h, 2 * (x % h));
  }

  /** An odd factor does not help towards a power of two. */
  lemma {:induction false} OddFactor(q: nat, j: nat, m: nat)
    requires PowerOfTwo(m) && q % 2 == 1
    ensures (q * j) % m == 0 <==> j % m == 0
    decreases m
  {
    if m > 1 {
      var h := m / 2;
      if j % 2 == 0 {
        assert q * j == 2 * (q * (j / 2));
        DoubleMod(q * (j / 2), h);
        DoubleMod(j / 2, h);
        OddFactor(q, j / 2, h);
      } else {
        OddProduct(q, j);
        EvenRest(q * j, h);
        EvenRest(j, h);
      }
    }
  }

  lemma OddProduct(q: nat, j: nat)
    requires q % 2 == 1 && j % 2 == 1
    ensures (q * j) % 2 == 1
  {
    assert q * j == 2 * (q / 2 * j) + j;
  }

  lemma EvenRest(x: nat, h: nat)
    requires h > 0 && x % 2 == 1
    ensures x % (2 * h) != 0
  {
    assert x == 2 * h * (x / (2 * h)) + x % (2 * h);
    assert 2 * h * (x / (2 * h)) == 2 * (h * (x / (2 * h)));
  }

  lemma {:induction false} PeriodExact(q: nat, j: nat, m: nat)
    requires PowerOfTwo(m)
    ensures (q * j) % m == 0 <==> j % Period(q, m) == 0
    decreases m
  {
    if m > 1 && q % 2 == 0 {
      assert q * j == 2 * (q / 2 * j);
      DoubleMod(q / 2 * j, m / 2);
      PeriodExact(q / 2, j, m / 2);
    } else if m > 1 {
      OddFactor(q, j, m);
    }
  }

  lemma Complement(x: nat, y: nat)
    requires x + y == W64
    ensures x % W32 == 0 <==> y % W32 == 0
  {
    assert W64 == W32 * W32;
    assert x == W32 * (x / W32) + x % W32;
    if x % W32 == 0 { BlocksVanish(y, 0, W32 - x / W32); }
    if y % W32 == 0 { BlocksVanish(x, 0, W32 - y / W32); }
  }

  lemma {:induction false} PowerProduct(a: nat, b: nat)
    requires PowerOfTwo(a) && PowerOfTwo(b)
    ensures PowerOfTwo(a * b)
    decreases a
  {
    if a > 1 {
      PowerProduct(a / 2, b);
      assert a == 2 * (a / 2);
      Positive(a / 2, b);
      DoublePower(a / 2 * b, a * b);
    }
  }

  lemma DoublePower(m: nat, n: nat)
    requires PowerOfTwo(m) && m > 0 && n == 2 * m
    ensures PowerOfTwo(n)
  {
  }

  lemma Positive(a: nat, b: nat)
    requires a > 0 && b > 0
    ensures a * b > 0
  {
    Products(a, b);
  }

  lemma Width()
    ensures PowerOfTwo(W32)
  {
    PowerProduct(0x10, 0x10);
    PowerProduct(0x100, 0x100);
    PowerProduct(0x1_0000, 0x1_0000);
  }

  /** Each part takes off the same amount, and together they take off 2^64 - size. */
  lemma AfterMirrored(size: nat, fraction: nat, k: nat)
    requires 0 < size < INT_LIMIT && fraction > 0 && k <= fraction && (W64 - size) % fraction == 0
    ensures var q := Decrement(size, fraction);
            (size + k * (q % W32)) % W32 == 0 <==> (q * (fraction - k)) % W32 == 0
  {
    var q := Decrement(size, fraction);
    AfterUntruncated(size, q, k);
    ExactQuotient(W64 - size, fraction);
    SplitProduct(q, fraction, k);
    Complement(size + k * q, q * (fraction - k));
  }

  lemma SplitProduct(q: nat, fraction: nat, k: nat)
    requires k <= fraction
    ensures k * q + q * (fraction - k) == q * fraction == fraction * q
    ensures k * q >= 0 && q * (fraction - k) >= 0
  {
    Products(k, q);
    Products(q, fraction - k);
  }

  /** The number of parts divides 2^64 - size and is less than the period of the decrement modulo 2^32. */
  predicate CountsDown(size: nat, fraction: nat)
    requires size < W64 && fraction > 0
  {
    (W64 - size) % fraction == 0 && fraction < Period(Decrement(size, fraction), W32)
  }

  /**
   For every number of parts: the countdown is 0 when all parts are done and never before if and only if
   `CountsDown` holds.
   */
  lemma StridedExactly(nums: seq<int>, targets: seq<int>, fraction: nat)
    requires 0 < |targets| < INT_LIMIT && 0 < fraction < INT_LIMIT
    ensures Exact(Strided(nums, targets, fraction)) <==> CountsDown(|targets|, fraction)
  {
    EndsAtZeroExactly(nums, targets, fraction);
    if (W64 - |targets|) % fraction == 0 {
      MirroredExactly(Strided(nums, targets, fraction), |targets|, fraction);
    }
  }

  lemma MirroredExactly(c: Config, size: nat, fraction: nat)
    requires 0 < size < INT_LIMIT && fraction > 0 && (W64 - size) % fraction == 0
    requires |c.parts| == fraction && c.start == size && c.amount == Decrement(size, fraction) % W32
    ensures Exact(c) <==> fraction < Period(Decrement(size, fraction), W32)
  {
    var period := Period(Decrement(size, fraction), W32);
    forall k: nat | k <= fraction ensures After(c, k) == 0 <==> (fraction - k) % period == 0 {
      Width();
      AfterMirrored(size, fraction, k);
      PeriodExact(Decrement(size, fraction), fraction - k, W32);
    }
    ExactByPeriod(c, period);
  }

  lemma ExactByPeriod(c: Config, period: nat)
    requires period > 0
    requires forall k: nat | k <= |c.parts| :: After(c, k) == 0 <==> (|c.parts| - k) % period == 0
    ensures Exact(c) <==> |c.parts| < period
  {
    if period <= |c.parts| {
      assert After(c, |c.parts| - period) == 0;
    } else {
      forall k: nat | k <= |c.parts| ensures After(c, k) == 0 <==> k == |c.parts| {
        QuotientAndRest(|c.parts| - k, period, 0, |c.parts| - k);
      }
    }
  }

  // ----- Main results -----

  /** The number of targets the search misses; in a sorted sequence those that are absent. */
  ghost predicate Counts(nums: seq<int>, targets: seq<int>, value: int) {
    && value == MissesFrom(nums, targets, 0)
    && (Sorted(IntLess, nums) ==> value == AbsentFrom(nums, targets, 0))
  }

  lemma MissesCount(nums: seq<int>, targets: seq<int>)
    ensures Counts(nums, targets, MissesFrom(nums, targets, 0))
  {
    if Sorted(IntLess, nums) { MissesAreAbsent(nums, targets, 0); }
  }

  /** prefetcht0: on every interleaving the value returned is the number of targets that are not found. */
  lemma SingleLookupCorrect(nums: seq<int>, targets: seq<int>, steps: seq<Step>, s: State)
    requires |targets| < INT_LIMIT && Reached(Single(nums, targets), steps, s) && s.reader.Returned?
    ensures Counts(nums, targets, s.reader.value)
  {
    var c := Single(nums, targets);
    SingleExact(nums, targets);
    ReachedInv(c, steps, s);
    SingleTotal(nums, targets, 0);
    assert c.parts[0..] == c.parts;
    MissesCount(nums, targets);
  }

  lemma {:induction false} SingleTotal(nums: seq<int>, targets: seq<int>, i: nat)
    requires i <= |targets|
    ensures Total(Single(nums, targets).parts[i..]) == MissesFrom(nums, targets, i)
    decreases |targets| - i
  {
    var parts := Single(nums, targets).parts;
    if i < |targets| {
      SingleTotal(nums, targets, i + 1);
      SumPopFirst(Size(), parts[i..]);
      assert parts[i..][1..] == parts[i + 1..];
    }
  }

  /** prefetch_test1: if the countdown is exact, on every interleaving the value read is the right count. */
  lemma StridedLookupCorrect(nums: seq<int>, targets: seq<int>, fraction: nat, steps: seq<Step>, s: State)
    requires |targets| < INT_LIMIT && 0 < fraction < INT_LIMIT
    requires targets == [] || CountsDown(|targets|, fraction)
    requires Reached(Strided(nums, targets, fraction), steps, s) && s.reader.Returned?
    ensures Counts(nums, targets, s.reader.value)
  {
    var c := Strided(nums, targets, fraction);
    ReachedInv(c, steps, s);
    PartsAddUp(nums, targets, fraction);
    MissesCount(nums, targets);
    if targets == [] {
      AllFinished(c.parts, s.stages);
      ReturnedNonNegative(c, steps, s);
    } else {
      StridedExactly(nums, targets, fraction);
    }
  }

  /** A number of parts that divides 2^32 - a power of two - and the number of targets is such a number. */
  lemma PowersOfTwoCountDown(size: nat, fraction: nat)
    requires 0 < size < INT_LIMIT && fraction > 0 && W32 % fraction == 0 && size % fraction == 0
    ensures fraction < INT_LIMIT && CountsDown(size, fraction)
  {
    var targets := seq(size, i => 0);
    StridedExact([], targets, fraction);
    DivisorBound(size, fraction);
    StridedExactly([], targets, fraction);
  }

  lemma DivisorBound(x: nat, d: nat)
    requires x > 0 && d > 0 && x % d == 0
    ensures d <= x
  {
    if d > x { assert x % d == x by { QuotientAndRest(x, d, 0, x); } }
  }

  lemma {:induction false} RunNonNegative(c: Config, s: State, steps: seq<Step>)
    requires CanRun(c, s, steps) && s.notFound >= 0 && (s.reader.Returned? ==> s.reader.value >= 0)
    ensures Run(c, s, steps).reader.Returned? ==> Run(c, s, steps).reader.value >= 0
    decreases steps
  {
    if steps != [] { RunNonNegative(c, Apply(c, s, steps[0]), steps[1..]); }
  }

  lemma ReturnedNonNegative(c: Config, steps: seq<Step>, s: State)
    requires Reached(c, steps, s) && s.reader.Returned?
    ensures s.reader.value >= 0
  {
    RunNonNegative(c, Init(c), steps);
  }

  /** No part waits for another one or for the reader, and the reader submits without waiting for any part. */
  lemma PartsAreIndependent(c: Config, steps: seq<Step>, s: State)
    requires Reached(c, steps, s)
    ensures s.reader.Submitting? ==> Enabled(c, s, SubmitPart)
    ensures forall p: nat | p < |c.parts| && p < |s.stages| ::
              (s.stages[p].Searching? ==> Enabled(c, s, AddMisses(p)))
              && (s.stages[p].Counted? ==> Enabled(c, s, CountDown(p)))
  {
    ReachedInv(c, steps, s);
    RunSubmits(c, Init(c), steps);
  }

  lemma {:induction false} RunSubmits(c: Config, s: State, steps: seq<Step>)
    requires CanRun(c, s, steps) && (s.reader.Submitting? ==> s.reader.next <= |s.stages|)
    ensures var t := Run(c, s, steps); t.reader.Submitting? ==> t.reader.next <= |t.stages|
    decreases steps
  {
    if steps != [] { RunSubmits(c, Apply(c, s, steps[0]), steps[1..]); }
  }

  /** A reader that polls after every part is done gets through, if the countdown is exact. */
  lemma PollSucceeds(c: Config, steps: seq<Step>, s: State)
    requires Exact(c) && Reached(c, steps, s) && s.reader.Spinning?
    ensures Apply(c, s, Poll).reader.SawZero? <==> Finished(s.stages) == |c.parts|
  {
    ReachedInv(c, steps, s);
    AllFinished(c.parts, s.stages);
  }

  // ----- A countdown that is 0 too early lets the reader out too early -----

  /** The misses of the parts from a to n - 1. */
  function SomeParts(parts: seq<nat>, a: nat, n: nat): nat
    requires a <= n <= |parts|
    decreases n
  {
    if n == a then 0 else SomeParts(parts, a, n - 1) + parts[n - 1]
  }

  /** The first `submitted` parts were submitted, and of them those from a to n - 1 are done. */
  function Shape(c: Config, submitted: nat, a: nat, n: nat, reader: Reader): State
    requires a <= n <= |c.parts|
  {
    State(seq(|c.parts|, p => if a <= p < n then Done else if p < submitted then Searching else Unsubmitted),
          SomeParts(c.parts, a, n), After(c, n - a), reader)
  }

  lemma RunCons(c: Config, s: State, step: Step, rest: seq<Step>) returns (steps: seq<Step>)
    requires Enabled(c, s, step) && CanRun(c, Apply(c, s, step), rest)
    ensures CanRun(c, s, steps) && Run(c, s, steps) == Run(c, Apply(c, s, step), rest)
  {
    steps := [step] + rest;
    assert steps[1..] == rest;
  }

  lemma {:induction false} RunThen(c: Config, s: State, steps: seq<Step>, step: Step)
    requires CanRun(c, s, steps) && Enabled(c, Run(c, s, steps), step)
    ensures CanRun(c, s, steps + [step]) && Run(c, s, steps + [step]) == Apply(c, Run(c, s, steps), step)
    decreases steps
  {
    if steps == [] {
      assert (steps + [step])[1..] == [];
    } else {
      assert (steps + [step])[1..] == steps[1..] + [step];
      RunThen(c, Apply(c, s, steps[0]), steps[1..], step);
    }
  }

  /** The parts from k on run one after another up to part n - 1. */
  lemma {:induction false} PartsRun(c: Config, a: nat, k: nat, n: nat) returns (steps: seq<Step>)
    requires a <= k <= n <= |c.parts|
    ensures var s := Shape(c, |c.parts|, a, k, Spinning);
            CanRun(c, s, steps) && Run(c, s, steps) == Shape(c, |c.parts|, a, n, Spinning)
    decreases n - k
  {
    if k == n {
      steps := [];
    } else {
      var s := Shape(c, |c.parts|, a, k, Spinning);
      var rest := PartsRun(c, a, k + 1, n);
      var counted := Apply(c, s, AddMisses(k));
      OneMore(c, k - a);
      assert Apply(c, counted, CountDown(k)).stages == Shape(c, |c.parts|, a, k + 1, Spinning).stages;
      steps := RunCons(c, counted, CountDown(k), rest);
      steps := RunCons(c, s, AddMisses(k), steps);
    }
  }

  /** All parts are submitted before any of them runs. */
  lemma {:induction false} SubmitRun(c: Config, i: nat, a: nat, n: nat) returns (steps: seq<Step>)
    requires i <= |c.parts| && a <= n <= |c.parts|
    ensures var s := Shape(c, i, a, a, Submitting(i));
            CanRun(c, s, steps) && Run(c, s, steps) == Shape(c, |c.parts|, a, n, Spinning)
    decreases |c.parts| - i
  {
    var s := Shape(c, i, a, a, Submitting(i));
    if i == |c.parts| {
      steps := PartsRun(c, a, a, n);
    } else {
      steps := SubmitRun(c, i + 1, a, n);
      assert Apply(c, s, SubmitPart).stages == Shape(c, i + 1, a, a, Submitting(i + 1)).stages;
    }
    steps := RunCons(c, s, SubmitPart, steps);
  }

  /** On some schedule exactly the parts from a to n - 1 are done while the reader spins. */
  lemma SpinsAfter(c: Config, a: nat, n: nat) returns (steps: seq<Step>)
    requires a <= n <= |c.parts|
    ensures Reached(c, steps, Shape(c, |c.parts|, a, n, Spinning))
    ensures Finished(Shape(c, |c.parts|, a, n, Spinning).stages) == n - a
  {
    assert Init(c) == Shape(c, 0, a, a, Submitting(0));
    steps := SubmitRun(c, 0, a, n);
    FirstDone(Shape(c, |c.parts|, a, n, Spinning).stages, a, n);
  }

  /** If the countdown is 0 after n - a parts, on some schedule the reader returns the misses of parts a to n - 1. */
  lemma EarlyReturn(c: Config, a: nat, n: nat) returns (steps: seq<Step>, s: State)
    requires a <= n <= |c.parts| && After(c, n - a) == 0
    ensures Reached(c, steps, s) && s.reader == Returned(SomeParts(c.parts, a, n)) && Finished(s.stages) == n - a
  {
    steps := SpinsAfter(c, a, n);
    s := Shape(c, |c.parts|, a, n, Spinning);
    RunThen(c, Init(c), steps, Poll);
    steps := steps + [Poll];
    s := s.(reader := SawZero);
    RunThen(c, Init(c), steps, Read);
    steps := steps + [Read];
    s := s.(reader := Returned(SomeParts(c.parts, a, n)));
  }

  lemma {:induction false} FirstDone(stages: seq<Stage>, a: nat, n: nat)
    requires a <= n <= |stages| && forall p | 0 <= p < |stages| :: stages[p].Done? <==> a <= p < n
    ensures Finished(stages) == n - a
  {
    if stages != [] {
      var last := |stages| - 1;
      FirstDone(stages[..last], if a <= last then a else last, if n <= last then n else last);
    }
  }

  /** If the countdown is not 0 when all parts are done, nothing ever changes again. */
  lemma {:induction false} SpinsForEver(c: Config, s: State, steps: seq<Step>)
    requires CanRun(c, s, steps) && s.reader.Spinning? && s.countDown != 0
    requires |s.stages| == |c.parts| && forall p | 0 <= p < |s.stages| :: s.stages[p].Done?
    ensures Run(c, s, steps) == s
    decreases steps
  {
    if steps != [] { SpinsForEver(c, s, steps[1..]); }
  }

  // ----- Exactly when the strided lookup works -----

  /** On every schedule a returned value is right, and a poll after the last part ends the spinning. */
  ghost predicate Reliable(nums: seq<int>, targets: seq<int>, fraction: nat)
    requires |targets| < W64 && fraction > 0
  {
    var c := Strided(nums, targets, fraction);
    forall steps, s | Reached(c, steps, s) ::
      && (s.reader.Returned? ==> s.reader.value == MissesFrom(nums, targets, 0))
      && (s.reader.Spinning? && Finished(s.stages) == fraction ==> s.countDown == 0)
  }

  /** That, whatever numbers are searched. */
  ghost predicate AlwaysReliable(targets: seq<int>, fraction: nat)
    requires |targets| < W64 && fraction > 0
  {
    forall nums :: Reliable(nums, targets, fraction)
  }

  lemma CountsDownReliable(nums: seq<int>, targets: seq<int>, fraction: nat)
    requires 0 < |targets| < INT_LIMIT && 0 < fraction < INT_LIMIT && CountsDown(|targets|, fraction)
    ensures Reliable(nums, targets, fraction)
  {
    var c := Strided(nums, targets, fraction);
    StridedExactly(nums, targets, fraction);
    forall steps, s | Reached(c, steps, s)
      ensures s.reader.Returned? ==> s.reader.value == MissesFrom(nums, targets, 0)
      ensures s.reader.Spinning? && Finished(s.stages) == fraction ==> s.countDown == 0
    {
      ReachedInv(c, steps, s);
      if s.reader.Returned? { StridedLookupCorrect(nums, targets, fraction, steps, s); }
    }
  }

  lemma {:induction false} SomePartsTotal(parts: seq<nat>, n: nat)
    requires n <= |parts|
    ensures SomeParts(parts, 0, n) == Total(parts[..n])
  {
    if n > 0 {
      SomePartsTotal(parts, n - 1);
      assert parts[..n][..n - 1] == parts[..n - 1];
    }
  }

  /** Without the first part its misses are missing. */
  lemma {:induction false} WithoutFirstPart(parts: seq<nat>, n: nat)
    requires 0 < n <= |parts|
    ensures SomeParts(parts, 1, n) + parts[0] == SomeParts(parts, 0, n)
  {
    if n > 1 { WithoutFirstPart(parts, n - 1); }
  }

  lemma {:induction false} SomePartsGrow(parts: seq<nat>, a: nat, k: nat, n: nat)
    requires a <= k <= n <= |parts|
    ensures SomeParts(parts, a, k) <= SomeParts(parts, a, n)
    decreases n
  {
    if k < n { SomePartsGrow(parts, a, k, n - 1); }
  }

  /** If nothing can be found the first target is missed, so that no count without the first part is right. */
  lemma PartialCountIsWrong(targets: seq<int>, fraction: nat, k: nat)
    requires targets != [] && k < fraction && |targets| < W64
    ensures SomeParts(Parts([], targets, fraction), 1, k + 1) < MissesFrom([], targets, 0)
  {
    var parts := Parts([], targets, fraction);
    assert parts[0] > 0;
    WithoutFirstPart(parts, k + 1);
    SomePartsGrow(parts, 0, k + 1, fraction);
    SomePartsTotal(parts, fraction);
    assert parts[..fraction] == parts;
    PartsAddUp([], targets, fraction);
  }

  lemma NotExactUnreliable(targets: seq<int>, fraction: nat)
    requires 0 < |targets| < INT_LIMIT && fraction > 0 && !Exact(Strided([], targets, fraction))
    ensures !Reliable([], targets, fraction)
  {
    var c := Strided([], targets, fraction);
    var k: nat :| k <= fraction && !(After(c, k) == 0 <==> k == fraction);
    if k == fraction {
      var steps := SpinsAfter(c, 0, fraction);
    } else {
      var steps, s := EarlyReturn(c, 1, k + 1);
      PartialCountIsWrong(targets, fraction, k);
    }
  }

  /**
   For any number of parts, whatever is searched: on every schedule the reader returns the right count and is
   not left spinning, if and only if the number of parts divides 2^64 - size and is less than the period of
   the decrement.
   */
  lemma ReliableExactly(targets: seq<int>, fraction: nat)
    requires 0 < |targets| < INT_LIMIT && 0 < fraction < INT_LIMIT
    ensures AlwaysReliable(targets, fraction) <==> CountsDown(|targets|, fraction)
  {
    if CountsDown(|targets|, fraction) {
      forall nums ensures Reliable(nums, targets, fraction) { CountsDownReliable(nums, targets, fraction); }
    } else {
      StridedExactly([], targets, fraction);
      NotExactUnreliable(targets, fraction);
    }
  }

  /** Three parts for three targets: when all are done the reader spins, and nothing ever changes that. */
  lemma ThreePartsNeverEnd(nums: seq<int>, targets: seq<int>) returns (steps: seq<Step>, s: State)
    requires |targets| == 3
    ensures var c := Strided(nums, targets, 3);
            Reached(c, steps, s) && s.reader.Spinning? && forall more | CanRun(c, s, more) :: Run(c, s, more) == s
  {
    var c := Strided(nums, targets, 3);
    EndsAtZeroExactly(nums, targets, 3);
    steps := SpinsAfter(c, 0, 3);
    s := Shape(c, 3, 0, 3, Spinning);
    forall more | CanRun(c, s, more) ensures Run(c, s, more) == s { SpinsForEver(c, s, more); }
  }

  /**
   43691 parts for 2^30 targets: the reader can return when four parts are still missing, and if nothing can
   be found what it returns is too small.
   */
  lemma CountdownEndsEarly(nums: seq<int>, targets: seq<int>) returns (steps: seq<Step>, s: State)
    requires |targets| == 0x4000_0000
    ensures var c := Strided(nums, targets, 43691);
            Reached(c, steps, s) && s.reader == Returned(SomeParts(c.parts, 1, 43688)) && Finished(s.stages) == 43687
    ensures nums == [] ==> s.reader.value < MissesFrom(nums, targets, 0)
  {
    EarlyDecrement();
    var q := EARLY_DECREMENT;
    AfterUntruncated(|targets|, q, 43687);
    BlocksVanish(0x4000_0000 + 43687 * q, 0, W32 - 0x5_fffd);
    steps, s := EarlyReturn(Strided(nums, targets, 43691), 1, 43688);
    if nums == [] { PartialCountIsWrong(targets, 43691, 43687); }
  }

  const EARLY_DECREMENT: nat := 0x1_7fff_4000_0000

  lemma EarlyDecrement()
    ensures Decrement(0x4000_0000, 43691) == EARLY_DECREMENT
  {
    QuotientAndRest(W64 - 0x4000_0000, 43691, EARLY_DECREMENT, 0);
  }
}
