/**
 * `space_timesteps` (diffusion/respace.py): which indices of the original
 * diffusion schedule a respaced sampler keeps.
 *
 * Two modes. "ddimN" keeps `range(0, n, stride)` for the smallest stride that
 * gives exactly N indices. Otherwise the schedule is cut into near-equal
 * contiguous sections and each section keeps its requested number of evenly
 * spaced, rounded indices. The fractional stride is kept as an exact rational
 * (numerator / denominator), so `round` is Python's round-half-to-even on a
 * rational.
 */
module Timesteps {
  import opened Wrappers

  datatype RespaceError =
    | NoIntegerStride(numTimesteps: int)      // the message names num_timesteps, not N
    | NoSections                              // an empty count list: `n // 0`
    | SectionTooSmall(size: int, count: int)  // "cannot divide section of {size} steps into {count}"

  /** `section_counts`: the "ddimN" directive, or one step count per section
      (a comma-separated string is split and parsed into this list first). */
  datatype SectionCounts = DdimSteps(desired: int) | Sections(counts: seq<int>)

  function Max(a: int, b: int): int { if a < b then b else a }

  function Min(a: int, b: int): int { if a < b then a else b }

  predicate StrictlyIncreasing(s: seq<int>) {
    forall i, j :: 0 <= i < j < |s| ==> s[i] < s[j]
  }

  predicate AllIn(s: seq<int>, lo: int, hi: int) {
    forall i :: 0 <= i < |s| ==> lo <= s[i] < hi
  }

  /** Python's `set(...)` of a list. */
  function Elements(s: seq<int>): set<int> {
    set x | x in s
  }

  lemma {:induction false} DistinctElementsCount(s: seq<int>)
    requires StrictlyIncreasing(s)
    ensures |Elements(s)| == |s|
  {
    if |s| > 0 {
      var init := s[..|s| - 1];
      DistinctElementsCount(init);
      assert Elements(s) == Elements(init) + {s[|s| - 1]};
      assert s[|s| - 1] !in Elements(init);
    }
  }

  lemma ConcatInOrder(a: seq<int>, b: seq<int>, lo: int, mid: int, hi: int)
    requires StrictlyIncreasing(a) && AllIn(a, lo, mid)
    requires StrictlyIncreasing(b) && AllIn(b, mid, hi)
    requires lo <= mid <= hi
    ensures StrictlyIncreasing(a + b) && AllIn(a + b, lo, hi)
  {
    var s := a + b;
    forall i | 0 <= i < |s| ensures lo <= s[i] < hi {
      if i >= |a| {
        assert s[i] == b[i - |a|];
      } else {
        assert s[i] == a[i];
      }
    }
    forall i, j | 0 <= i < j < |s| ensures s[i] < s[j] {
      if j < |a| {
      } else if i >= |a| {
        assert s[i] == b[i - |a|] && s[j] == b[j - |a|];
      } else {
        assert s[j] == b[j - |a|];
      }
    }
  }

  // ------------------------------------------------------------------
  // Python's round() on the rational n / d
  // ------------------------------------------------------------------

  /** The integer nearest to n / d, ties to the even neighbour. */
  function RoundHalfEven(n: int, d: int): (r: int)
    requires d > 0
    ensures NearestTo(r, n, d)
    ensures 2 * d * r == 2 * n - d ==> r % 2 == 0
    ensures 2 * d * r == 2 * n + d ==> r % 2 == 0
  {
    var q, rem := n / d, n % d;
    assert n == d * q + rem;
    if 2 * rem < d then q
    else if 2 * rem > d then q + 1
    else if q % 2 == 0 then q
    else q + 1
  }

  lemma MulMono(x: int, y: int, c: int)
    requires x <= y && c >= 0
    ensures x * c <= y * c
  {
  }

  lemma MulCancel(x: int, y: int, c: int)
    requires c > 0 && c * x <= c * y
    ensures x <= y
  {
    if x > y {
      MulMono(y + 1, x, c);
    }
  }

  /** Bounds that pin the nearest integer r to n / d. */
  predicate NearestTo(r: int, n: int, d: int) {
    2 * n - d <= 2 * d * r <= 2 * n + d
  }

  lemma NearestToMultiple(r: int, m: int, d: int)
    requires d > 0 && NearestTo(r, m * d, d)
    ensures r == m
  {
    assert d * (2 * r) <= d * (2 * m + 1) && d * (2 * m - 1) <= d * (2 * r);
    MulCancel(2 * r, 2 * m + 1, d);
    MulCancel(2 * m - 1, 2 * r, d);
  }

  lemma NearestInSection(r: int, k: int, p: int, q: int)
    requires 0 <= k <= q && 0 <= p && q >= 1 && NearestTo(r, k * p, q)
    ensures 0 <= r <= p
  {
    MulMono(0, k, p);
    MulMono(k, q, p);
    assert q * (-1) <= q * (2 * r) <= q * (2 * p + 1);
    MulCancel(-1, 2 * r, q);
    MulCancel(2 * r, 2 * p + 1, q);
  }

  lemma NearestStrictlyIncreasing(r: int, r': int, k: int, k': int, p: int, q: int)
    requires 0 <= k < k' && p > q >= 1
    requires NearestTo(r, k * p, q) && NearestTo(r', k' * p, q)
    ensures r < r'
  {
    MulMono(k + 1, k', p);
    assert k' * p >= k * p + p;
    assert 2 * q * r' > 2 * q * r;
    if r' <= r {
      MulMono(r', r, q);
    }
  }

  lemma RoundOfMultiple(m: int, d: int)
    requires d > 0
    ensures RoundHalfEven(m * d, d) == m
  {
    NearestToMultiple(RoundHalfEven(m * d, d), m, d);
  }

  /** The rounded k-th point of a section stays inside [0, p] while k <= q. */
  lemma RoundInSection(k: int, p: int, q: int)
    requires 0 <= k <= q && 0 <= p && q >= 1
    ensures 0 <= RoundHalfEven(k * p, q) <= p
  {
    NearestInSection(RoundHalfEven(k * p, q), k, p, q);
  }

  /** With a fractional stride p / q of at least one, rounded points strictly increase. */
  lemma RoundStrictlyIncreasing(k: int, k': int, p: int, q: int)
    requires 0 <= k < k' && p >= q >= 1
    ensures RoundHalfEven(k * p, q) < RoundHalfEven(k' * p, q)
  {
    if p == q {
      RoundOfMultiple(k, q);
      RoundOfMultiple(k', q);
    } else {
      NearestStrictlyIncreasing(RoundHalfEven(k * p, q), RoundHalfEven(k' * p, q), k, k', p, q);
    }
  }

  // ------------------------------------------------------------------
  // "ddimN": a fixed integer stride
  // ------------------------------------------------------------------

  /** len(range(0, n, stride)) */
  function RangeLen(n: nat, stride: int): nat
    requires stride >= 1
  {
    (n + stride - 1) / stride
  }

  lemma RangeLenSpec(n: nat, stride: int, k: nat)
    requires stride >= 1
    ensures k < RangeLen(n, stride) <==> k * stride < n
  {
    var len := RangeLen(n, stride);
    assert len * stride <= n + stride - 1 < (len + 1) * stride;
    if k < len {
      assert k * stride <= (len - 1) * stride;
    } else {
      assert k * stride >= len * stride;
    }
  }

  /** range(0, n, stride) */
  function StridedRange(n: nat, stride: int): (r: seq<int>)
    requires stride >= 1
    ensures |r| == RangeLen(n, stride)
  {
    seq(RangeLen(n, stride), k => k * stride)
  }

  lemma StridedRangeFacts(n: nat, stride: int)
    requires stride >= 1
    ensures StrictlyIncreasing(StridedRange(n, stride))
    ensures AllIn(StridedRange(n, stride), 0, n)
    ensures forall x :: x in StridedRange(n, stride) <==> 0 <= x < n && x % stride == 0
  {
    var s := StridedRange(n, stride);
    forall i, j | 0 <= i < j < |s| ensures s[i] < s[j] {
      assert s[j] - s[i] == (j - i) * stride;
    }
    forall i | 0 <= i < |s| ensures 0 <= s[i] < n && s[i] % stride == 0 {
      RangeLenSpec(n, stride, i);
    }
    forall x | 0 <= x < n && x % stride == 0 ensures x in s {
      var k := x / stride;
      assert x == k * stride;
      RangeLenSpec(n, stride, k);
      assert s[k] == x;
    }
  }

  predicate IsSmallestStride(n: nat, desired: int, stride: int) {
    1 <= stride < n && RangeLen(n, stride) == desired &&
    forall j :: 1 <= j < stride ==> RangeLen(n, j) != desired
  }

  /** The search loop of the "ddimN" branch: strides 1 .. n - 1 in order. */
  method DdimStride(n: nat, desired: int) returns (r: Result<int, RespaceError>)
    ensures r.Success? ==> IsSmallestStride(n, desired, r.value)
    ensures r.Failure? ==> r.error == NoIntegerStride(n)
    ensures r.Failure? <==> forall j :: 1 <= j < n ==> RangeLen(n, j) != desired
  {
    var i := 1;
    while i < n
      invariant 1 <= i
      invariant forall j :: 1 <= j < i && j < n ==> RangeLen(n, j) != desired
    {
      if RangeLen(n, i) == desired {
        return Success(i);
      }
      i := i + 1;
    }
    return Failure(NoIntegerStride(n));
  }

  /** The set a "ddimN" request returns has exactly N elements, the multiples of the stride below n. */
  lemma SmallestStrideSet(n: nat, desired: int, stride: int)
    requires IsSmallestStride(n, desired, stride)
    ensures |Elements(StridedRange(n, stride))| == desired
    ensures forall x :: x in Elements(StridedRange(n, stride)) <==> 0 <= x < n && x % stride == 0
  {
    StridedRangeFacts(n, stride);
    DistinctElementsCount(StridedRange(n, stride));
  }

  /** Strides stop at n - 1, so "ddim1" is never satisfiable. */
  lemma DdimOneUnsatisfiable(n: nat, j: int)
    requires 1 <= j < n
    ensures RangeLen(n, j) != 1
  {
    RangeLenSpec(n, j, 1);
  }

  // ------------------------------------------------------------------
  // Section mode
  // ------------------------------------------------------------------

  /** size_per + (1 if i < extra else 0) */
  function SectionSize(n: nat, m: nat, i: int): nat
    requires m > 0
  {
    n / m + (if i < n % m then 1 else 0)
  }

  /** start_idx before section i: the sizes of sections 0 .. i - 1 added up. */
  function SectionStart(n: nat, m: nat, i: nat): nat
    requires m > 0
  {
    if i == 0 then 0 else SectionStart(n, m, i - 1) + SectionSize(n, m, i - 1)
  }

  lemma {:induction false} SectionStartClosed(n: nat, m: nat, i: nat)
    requires m > 0
    ensures SectionStart(n, m, i) == i * (n / m) + Min(i, n % m)
  {
    if i > 0 {
      SectionStartClosed(n, m, i - 1);
      assert (i - 1) * (n / m) + n / m == i * (n / m);
    }
  }

  /** The sections are contiguous from 0 and their sizes add up to n. */
  lemma SectionsPartition(n: nat, m: nat)
    requires m > 0
    ensures SectionStart(n, m, m) == n
    ensures forall i :: 0 <= i < m ==> SectionStart(n, m, i) + SectionSize(n, m, i) == SectionStart(n, m, i + 1)
  {
    SectionStartClosed(n, m, m);
  }

  /** frac_stride = StrideNum / StrideDen: 1 for at most one step, else (size - 1) / (count - 1). */
  function StrideNum(size: int, count: int): int {
    if count <= 1 then 1 else size - 1
  }

  function StrideDen(count: int): (den: int)
    ensures den >= 1
  {
    if count <= 1 then 1 else count - 1
  }

  /** start_idx + round(cur_idx) after k additions of frac_stride. */
  function SectionIndex(start: int, size: int, count: int, k: int): int {
    start + RoundHalfEven(k * StrideNum(size, count), StrideDen(count))
  }

  /** taken_steps of one section (`range(count)` is empty for count <= 0). */
  function TakenSteps(start: int, size: int, count: int): (taken: seq<int>)
    ensures |taken| == Max(count, 0)
  {
    seq(Max(count, 0), k => SectionIndex(start, size, count, k))
  }

  /** A section that is large enough yields its count of strictly increasing indices
      inside [start, start + size), from its start to its last slot. */
  lemma TakenStepsInSection(start: int, size: int, count: int)
    requires count <= size
    ensures StrictlyIncreasing(TakenSteps(start, size, count))
    ensures AllIn(TakenSteps(start, size, count), start, start + size)
    ensures count >= 1 ==> TakenSteps(start, size, count)[0] == start
    ensures count >= 2 ==> TakenSteps(start, size, count)[count - 1] == start + size - 1
  {
    var s := TakenSteps(start, size, count);
    var p, q := StrideNum(size, count), StrideDen(count);
    forall i, j | 0 <= i < j < |s| ensures s[i] < s[j] {
      RoundStrictlyIncreasing(i, j, p, q);
    }
    forall i | 0 <= i < |s| ensures start <= s[i] < start + size {
      RoundInSection(i, p, q);
    }
    if count >= 1 {
      RoundOfMultiple(0, q);
    }
    if count >= 2 {
      LastSectionIndex(start, size, count);
    }
  }

  lemma LastSectionIndex(start: int, size: int, count: int)
    requires 2 <= count <= size
    ensures SectionIndex(start, size, count, count - 1) == start + size - 1
  {
    var p, q := size - 1, count - 1;
    assert StrideNum(size, count) == p && StrideDen(count) == q;
    RoundOfMultiple(p, q);
    assert (count - 1) * p == p * q;
  }

  /** The body of the inner loop: append start_idx + round(cur_idx), then cur_idx += frac_stride.
      cur_idx is kept as the numerator `cur` over the fixed denominator of frac_stride. */
  method TakeSection(start: int, size: int, count: int) returns (taken: seq<int>)
    ensures |taken| == Max(count, 0)
    ensures forall k :: 0 <= k < |taken| ==>
      taken[k] == start + RoundHalfEven(k * StrideNum(size, count), StrideDen(count))
    ensures count <= size ==> StrictlyIncreasing(taken) && AllIn(taken, start, start + size)
  {
    var num, den := StrideNum(size, count), StrideDen(count);
    var cur := 0;
    taken := [];
    var k := 0;
    while k < count
      invariant 0 <= k <= Max(count, 0)
      invariant cur == k * num
      invariant taken == TakenSteps(start, size, count)[..k]
    {
      taken := taken + [start + RoundHalfEven(cur, den)];
      cur := cur + num;
      k := k + 1;
    }
    assert taken == TakenSteps(start, size, count);
    if count <= size {
      TakenStepsInSection(start, size, count);
    }
  }

  function SectionCount(counts: seq<int>): nat {
    |counts|
  }

  /** all_steps after the first i sections. */
  function AllSteps(n: nat, counts: seq<int>, i: nat): seq<int>
    requires 0 < |counts| && i <= |counts|
  {
    if i == 0 then []
    else
      var m := |counts|;
      AllSteps(n, counts, i - 1) + TakenSteps(SectionStart(n, m, i - 1), SectionSize(n, m, i - 1), counts[i - 1])
  }

  /** The number of indices the first i sections take (a negative count takes none). */
  function TakenCount(counts: seq<int>, i: nat): nat
    requires i <= |counts|
  {
    if i == 0 then 0 else TakenCount(counts, i - 1) + Max(counts[i - 1], 0)
  }

  predicate FitsUpTo(n: nat, counts: seq<int>, i: nat)
    requires 0 < |counts| && i <= |counts|
  {
    forall j :: 0 <= j < i ==> counts[j] <= SectionSize(n, |counts|, j)
  }

  /** No section is smaller than its requested count. */
  predicate AllFit(n: nat, counts: seq<int>) {
    0 < |counts| && FitsUpTo(n, counts, |counts|)
  }

  /** Section i is the first one smaller than its count: the one the error names. */
  predicate FirstTooSmall(n: nat, counts: seq<int>, i: int) {
    0 <= i < |counts| && SectionSize(n, |counts|, i) < counts[i] && FitsUpTo(n, counts, i)
  }

  lemma {:induction false} AllStepsFacts(n: nat, counts: seq<int>, i: nat)
    requires 0 < |counts| && i <= |counts|
    requires FitsUpTo(n, counts, i)
    ensures StrictlyIncreasing(AllSteps(n, counts, i))
    ensures AllIn(AllSteps(n, counts, i), 0, SectionStart(n, |counts|, i))
    ensures |AllSteps(n, counts, i)| == TakenCount(counts, i)
  {
    if i > 0 {
      var m := |counts|;
      AllStepsFacts(n, counts, i - 1);
      var start, size := SectionStart(n, m, i - 1), SectionSize(n, m, i - 1);
      TakenStepsInSection(start, size, counts[i - 1]);
      ConcatInOrder(AllSteps(n, counts, i - 1), TakenSteps(start, size, counts[i - 1]), 0, start, start + size);
    }
  }

  /** The whole section-mode list: sorted, inside [0, n), one entry per requested step. */
  lemma SectionModeFacts(n: nat, counts: seq<int>)
    requires AllFit(n, counts)
    ensures StrictlyIncreasing(AllSteps(n, counts, |counts|))
    ensures AllIn(AllSteps(n, counts, |counts|), 0, n)
    ensures |Elements(AllSteps(n, counts, |counts|))| == TakenCount(counts, |counts|)
  {
    AllStepsFacts(n, counts, |counts|);
    SectionsPartition(n, |counts|);
    DistinctElementsCount(AllSteps(n, counts, |counts|));
  }

  /** One more section: its start, its steps and its fit. */
  lemma NextSection(n: nat, counts: seq<int>, i: nat)
    requires 0 < |counts| && i < |counts|
    requires FitsUpTo(n, counts, i) && counts[i] <= SectionSize(n, |counts|, i)
    ensures SectionStart(n, |counts|, i + 1) == SectionStart(n, |counts|, i) + SectionSize(n, |counts|, i)
    ensures AllSteps(n, counts, i + 1) ==
      AllSteps(n, counts, i) + TakenSteps(SectionStart(n, |counts|, i), SectionSize(n, |counts|, i), counts[i])
    ensures FitsUpTo(n, counts, i + 1)
  {
  }

  /** The outer loop of section mode, up to `all_steps`. */
  method SectionSteps(n: nat, counts: seq<int>) returns (r: Result<seq<int>, RespaceError>)
    ensures |counts| == 0 ==> r == Failure(NoSections)
    ensures r.Success? <==> AllFit(n, counts)
    ensures r.Success? ==> r.value == AllSteps(n, counts, |counts|)
    ensures r.Failure? && |counts| > 0 ==>
      exists i :: FirstTooSmall(n, counts, i) && r.error == SectionTooSmall(SectionSize(n, |counts|, i), counts[i])
  {
    if |counts| == 0 {
      return Failure(NoSections);
    }
    var m := |counts|;
    var sizePer, extra := n / m, n % m;
    var startIdx := 0;
    var allSteps := [];
    var i := 0;
    while i < m
      invariant 0 <= i <= m
      invariant startIdx == SectionStart(n, m, i)
      invariant allSteps == AllSteps(n, counts, i)
      invariant FitsUpTo(n, counts, i)
    {
      var size := sizePer + (if i < extra then 1 else 0);
      if size < counts[i] {
        assert FirstTooSmall(n, counts, i);
        return Failure(SectionTooSmall(size, counts[i]));
      }
      NextSection(n, counts, i);
      var taken := TakeSection(startIdx, size, counts[i]);
      allSteps := allSteps + taken;
      startIdx := startIdx + size;
      i := i + 1;
    }
    return Success(allSteps);
  }

  /** space_timesteps(num_timesteps, section_counts) */
  method SpaceTimesteps(n: nat, sectionCounts: SectionCounts) returns (r: Result<set<int>, RespaceError>)
    ensures sectionCounts.DdimSteps? ==>
      (r.Success? <==> exists j :: 1 <= j < n && RangeLen(n, j) == sectionCounts.desired)
    ensures sectionCounts.DdimSteps? && r.Success? ==>
      exists stride :: IsSmallestStride(n, sectionCounts.desired, stride) && r.value == Elements(StridedRange(n, stride))
    ensures sectionCounts.DdimSteps? && r.Success? ==> |r.value| == sectionCounts.desired
    ensures sectionCounts.DdimSteps? && r.Failure? ==> r.error == NoIntegerStride(n)
    ensures sectionCounts.Sections? ==> (r.Success? <==> AllFit(n, sectionCounts.counts))
    ensures sectionCounts.Sections? && r.Success? ==>
      r.value == Elements(AllSteps(n, sectionCounts.counts, |sectionCounts.counts|)) &&
      |r.value| == TakenCount(sectionCounts.counts, |sectionCounts.counts|)
    ensures r.Success? ==> forall x :: x in r.value ==> 0 <= x < n
    ensures sectionCounts == Sections([]) ==> r == Failure(NoSections)
    ensures sectionCounts.Sections? && r.Failure? && |sectionCounts.counts| > 0 ==>
      exists i :: FirstTooSmall(n, sectionCounts.counts, i) &&
        r.error == SectionTooSmall(SectionSize(n, |sectionCounts.counts|, i), sectionCounts.counts[i])
  {
    match sectionCounts
    case DdimSteps(desired) =>
      var stride := DdimStride(n, desired);
      if stride.Failure? {
        return Failure(stride.error);
      }
      SmallestStrideSet(n, desired, stride.value);
      StridedRangeFacts(n, stride.value);
      return Success(Elements(StridedRange(n, stride.value)));
    case Sections(counts) =>
      var steps := SectionSteps(n, counts);
      if steps.Failure? {
        return Failure(steps.error);
      }
      SectionModeFacts(n, counts);
      return Success(Elements(steps.value));
  }

  // ------------------------------------------------------------------
  // Worked examples
  // ------------------------------------------------------------------

  /** "ddim50" over 1000 steps: stride 20, the 50 indices 0, 20, ..., 980. */
  lemma Ddim50Over1000()
    ensures IsSmallestStride(1000, 50, 20)
    ensures |Elements(StridedRange(1000, 20))| == 50
    ensures forall x :: x in Elements(StridedRange(1000, 20)) <==> 0 <= x < 1000 && x % 20 == 0
  {
    forall j | 1 <= j < 20 ensures RangeLen(1000, j) != 50 {
      RangeLenSpec(1000, j, 50);
    }
    SmallestStrideSet(1000, 50, 20);
  }

  /** Section spec "250" over 1000 steps: 250 indices from 0 up to 999. */
  lemma Sections250Over1000()
    ensures AllFit(1000, [250])
    ensures |Elements(AllSteps(1000, [250], 1))| == 250
    ensures 0 in Elements(AllSteps(1000, [250], 1)) && 999 in Elements(AllSteps(1000, [250], 1))
    ensures forall x :: x in Elements(AllSteps(1000, [250], 1)) ==> 0 <= x < 1000
  {
    var counts := [250];
    assert SectionSize(1000, 1, 0) == 1000;
    assert AllFit(1000, counts);
    SectionModeFacts(1000, counts);
    SingleSectionEndpoints(1000, 250);
  }

  /** With one section, the indices run from 0 to n - 1. */
  lemma SingleSectionEndpoints(n: nat, count: int)
    requires 2 <= count <= n
    ensures AllSteps(n, [count], 1)[0] == 0 && AllSteps(n, [count], 1)[count - 1] == n - 1
  {
    var counts := [count];
    assert SectionStart(n, 1, 0) == 0 && SectionSize(n, 1, 0) == n;
    var t := TakenSteps(0, n, count);
    assert AllSteps(n, counts, 0) == [];
    assert AllSteps(n, counts, 1) == [] + t;
    assert [] + t == t;
    TakenStepsInSection(0, n, count);
  }

  /** The docstring's example: 300 steps, counts [10, 15, 20]: three sections of 100
      starting at 0, 100 and 200, 45 indices, the first section strided by 11. */
  lemma DocstringExample()
    ensures AllFit(300, [10, 15, 20])
    ensures SectionStart(300, 3, 1) == 100 && SectionStart(300, 3, 2) == 200
    ensures |Elements(AllSteps(300, [10, 15, 20], 3))| == 45
    ensures forall k :: 0 <= k < 10 ==> AllSteps(300, [10, 15, 20], 3)[k] == 11 * k
  {
    var counts := [10, 15, 20];
    assert SectionSize(300, 3, 0) == 100 && SectionSize(300, 3, 1) == 100 && SectionSize(300, 3, 2) == 100;
    assert AllFit(300, counts);
    SectionModeFacts(300, counts);
    assert TakenCount(counts, 3) == 45;
    var first := TakenSteps(0, 100, 10);
    assert AllSteps(300, counts, 1) == first;
    assert AllSteps(300, counts, 3)[..10] == first;
    forall k | 0 <= k < 10 ensures first[k] == 11 * k {
      RoundOfMultiple(k, 9);
      assert k * 99 == (11 * k) * 9;
    }
  }
}
