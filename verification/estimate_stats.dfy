/** The statistics panel of the participants table: the numeric revealed
    estimates, sorted, give an average rounded to one decimal and a median. */
module EstimateStats {
  import opened Optional
  import opened Seqs
  import opened Numbers
  import opened Estimates

  /** `e !== "?" && !isNaN(Number(e))`, then `Number(e)`. */
  function NumericValue(v: string): Option<real> {
    if v == "?" then None else ParseNum(v)
  }

  /** A face that survives the numeric filter. */
  predicate IsNumericFace(v: string) {
    NumericValue(v).Some?
  }

  /** The numbers among the revealed values, in input order, one per numeric
      face: a card picked twice counts twice. */
  function NumericEstimates(values: seq<string>): (r: seq<real>)
    ensures |r| == Count(values, IsNumericFace)
    ensures forall x | x in r :: exists v :: v in values && v != "?" && ParseNum(v) == Some(x)
    ensures forall v | v in values && v != "?" && ParseNum(v).Some? :: ParseNum(v).value in r
  {
    FilterMapMembers(values, NumericValue);
    FilterMapCount(values, NumericValue, IsNumericFace);
    FilterMap(values, NumericValue)
  }

  /** The numeric filter keeps the order of the values and every duplicate. */
  lemma NumericEstimatesAppend(a: seq<string>, b: seq<string>)
    ensures NumericEstimates(a + b) == NumericEstimates(a) + NumericEstimates(b)
  {
    FilterMapAppend(a, b, NumericValue);
  }

  /** One face contributes its number when it is not "?" and parses, and
      nothing otherwise. */
  lemma NumericEstimatesSingle(v: string)
    ensures v != "?" && ParseNum(v).Some? ==> NumericEstimates([v]) == [ParseNum(v).value]
    ensures v == "?" || ParseNum(v).None? ==> NumericEstimates([v]) == []
  {
    assert [v][1..] == [];
  }

  predicate Sorted(s: seq<real>) {
    forall i, j :: 0 <= i < j < |s| ==> s[i] <= s[j]
  }

  function Insert(x: real, s: seq<real>): (r: seq<real>)
    requires Sorted(s)
    ensures Sorted(r)
    ensures multiset(r) == multiset(s) + multiset{x}
  {
    if |s| == 0 || x <= s[0] then [x] + s
    else
      var t := Insert(x, s[1..]);
      LowerBoundKept(s[0], t, s[1..] + [x]);
      assert s == [s[0]] + s[1..];
      [s[0]] + t
  }

  /** A lower bound of every element stays one under any rearrangement. */
  lemma LowerBoundKept(lo: real, t: seq<real>, u: seq<real>)
    requires multiset(t) == multiset(u)
    requires forall y | y in u :: lo <= y
    ensures forall i | 0 <= i < |t| :: lo <= t[i]
  {
    forall i | 0 <= i < |t| ensures lo <= t[i] {
      assert t[i] in multiset(u);
      assert t[i] in u;
    }
  }

  /** `.sort((a, b) => a - b)`: ascending numeric order. */
  function SortAscending(s: seq<real>): (r: seq<real>)
    ensures Sorted(r)
    ensures multiset(r) == multiset(s)
  {
    if |s| == 0 then []
    else
      assert s == [s[0]] + s[1..];
      Insert(s[0], SortAscending(s[1..]))
  }

  /** A multiset has exactly one ascending arrangement. */
  lemma {:induction false} SortedUnique(a: seq<real>, b: seq<real>)
    requires Sorted(a) && Sorted(b)
    requires multiset(a) == multiset(b)
    ensures a == b
    decreases |a|
  {
    assert |a| == |multiset(a)| == |multiset(b)| == |b|;
    if |a| != 0 {
      SortedSameHead(a, b);
      RemoveHeads(a, b);
      SortedUnique(a[1..], b[1..]);
      assert a == [a[0]] + a[1..] && b == [b[0]] + b[1..];
    }
  }

  lemma SortedSameHead(a: seq<real>, b: seq<real>)
    requires Sorted(a) && Sorted(b)
    requires multiset(a) == multiset(b) && |a| > 0
    ensures |b| > 0 && a[0] == b[0]
  {
    assert a[0] in multiset(b);
    var j :| 0 <= j < |b| && b[j] == a[0];
    assert b[0] in multiset(a);
    var k :| 0 <= k < |a| && a[k] == b[0];
    assert b[0] <= b[j] && a[0] <= a[k];
  }

  /** `reduce((a, b) => a + b, 0)`. */
  function Sum(s: seq<real>): real {
    if |s| == 0 then 0.0 else s[0] + Sum(s[1..])
  }

  lemma {:induction false} SumAppend(a: seq<real>, b: seq<real>)
    ensures Sum(a + b) == Sum(a) + Sum(b)
    decreases |a|
  {
    if |a| == 0 {
      assert a + b == b;
    } else {
      assert (a + b)[1..] == a[1..] + b;
      SumAppend(a[1..], b);
    }
  }

  lemma {:induction false} SumPermutation(a: seq<real>, b: seq<real>)
    requires multiset(a) == multiset(b)
    ensures Sum(a) == Sum(b)
    decreases |a|
  {
    if |a| == 0 {
      assert |b| == |multiset(b)| == 0;
    } else {
      assert a[0] in multiset(b);
      var i :| 0 <= i < |b| && b[i] == a[0];
      var pre, post := b[..i], b[i + 1..];
      assert b == pre + ([a[0]] + post);
      RemoveMatching(a, b, i);
      SumPermutation(a[1..], pre + post);
      SumAppend(pre, [a[0]] + post);
      SumAppend(pre, post);
    }
  }

  /** Every element lies in `[lo, hi]`, so the sum lies in `[n * lo, n * hi]`. */
  lemma {:induction false} SumBounds(s: seq<real>, lo: real, hi: real)
    requires forall x | x in s :: lo <= x <= hi
    ensures |s| as real * lo <= Sum(s) <= |s| as real * hi
    decreases |s|
  {
    if |s| != 0 {
      assert s[0] in s;
      assert forall x | x in s[1..] :: x in s;
      SumBounds(s[1..], lo, hi);
      BoundsStep((|s| - 1) as real, lo, hi, s[0], Sum(s[1..]));
    }
  }

  lemma BoundsStep(n: real, lo: real, hi: real, x: real, rest: real)
    requires lo <= x <= hi && n * lo <= rest <= n * hi
    ensures (n + 1.0) * lo <= x + rest <= (n + 1.0) * hi
  {
    assert (n + 1.0) * lo == n * lo + lo;
    assert (n + 1.0) * hi == n * hi + hi;
  }

  /** The unrounded arithmetic mean. */
  function Mean(s: seq<real>): real
    requires |s| > 0
  {
    Sum(s) / |s| as real
  }

  /** Some element is at most, and some element at least, `m`: `m` lies
      between the minimum and the maximum of `s`. */
  predicate WithinRange(s: seq<real>, m: real) {
    (exists i :: 0 <= i < |s| && s[i] <= m) && (exists j :: 0 <= j < |s| && m <= s[j])
  }

  /** A value between the ends of an ascending sequence is within the range of
      any arrangement of it. */
  lemma WithinRangeOfSorted(s: seq<real>, t: seq<real>, m: real)
    requires Sorted(t) && multiset(t) == multiset(s) && |t| > 0
    requires t[0] <= m <= t[|t| - 1]
    ensures WithinRange(s, m)
  {
    assert t[0] in multiset(s) && t[|t| - 1] in multiset(s);
    var i :| 0 <= i < |s| && s[i] == t[0];
    var j :| 0 <= j < |s| && s[j] == t[|t| - 1];
  }

  lemma MeanWithinRange(s: seq<real>)
    requires |s| > 0
    ensures WithinRange(s, Mean(s))
  {
    var t := SortAscending(s);
    assert |t| == |multiset(t)| == |s|;
    SortedMeanBounds(t);
    SumPermutation(s, t);
    WithinRangeOfSorted(s, t, Mean(s));
  }

  lemma SortedMeanBounds(t: seq<real>)
    requires Sorted(t) && |t| > 0
    ensures t[0] <= Mean(t) <= t[|t| - 1]
  {
    forall x | x in t ensures t[0] <= x <= t[|t| - 1] {
      var k :| 0 <= k < |t| && t[k] == x;
    }
    SumBounds(t, t[0], t[|t| - 1]);
    DivideBounds(Sum(t), |t| as real, t[0], t[|t| - 1]);
  }

  lemma DivideBounds(x: real, n: real, lo: real, hi: real)
    requires n > 0.0 && n * lo <= x <= n * hi
    ensures lo <= x / n <= hi
  {
  }

  /** The middle element for an odd count, the mean of the two middle
      elements for an even count. */
  function MedianOfSorted(s: seq<real>): real
    requires |s| > 0
  {
    if |s| % 2 == 0 then (s[|s| / 2 - 1] + s[|s| / 2]) / 2.0 else s[|s| / 2]
  }

  datatype Stats = Stats(average: real, median: real)

  /** `calculateStats` over a list of numbers: `{0, 0}` when it is empty. */
  function StatsOf(nums: seq<real>): (r: Stats)
    ensures nums == [] ==> r == Stats(0.0, 0.0)
    ensures nums != [] ==> Mean(nums) - 0.05 < r.average <= Mean(nums) + 0.05
    ensures nums != [] ==> (r.average * 10.0).Floor as real == r.average * 10.0
    ensures nums != [] ==> WithinRange(nums, r.median)
  {
    if |nums| == 0 then Stats(0.0, 0.0)
    else
      var sorted := SortAscending(nums);
      SortedSummary(nums, sorted);
      Stats(RoundToTenth(Sum(sorted) / |sorted| as real), MedianOfSorted(sorted))
  }

  /** Sorting keeps the mean, and the middle of the sorted list lies within the
      range of the original. */
  lemma SortedSummary(nums: seq<real>, sorted: seq<real>)
    requires nums != [] && Sorted(sorted) && multiset(sorted) == multiset(nums)
    ensures |sorted| == |nums|
    ensures Sum(sorted) / |sorted| as real == Mean(nums)
    ensures WithinRange(nums, MedianOfSorted(sorted))
  {
    assert |sorted| == |multiset(sorted)| == |nums|;
    SumPermutation(nums, sorted);
    WithinRangeOfSorted(nums, sorted, MedianOfSorted(sorted));
  }

  /** `calculateStats()` of the participants table. */
  function CalculateStats(es: seq<Estimate>): (r: Stats)
    ensures NumericEstimates(RevealedValues(es)) == [] ==> r == Stats(0.0, 0.0)
    ensures var nums := NumericEstimates(RevealedValues(es));
      nums != [] ==> && Mean(nums) - 0.05 < r.average <= Mean(nums) + 0.05
                     && (r.average * 10.0).Floor as real == r.average * 10.0
                     && WithinRange(nums, r.median)
    ensures r == StatsOf(NumericEstimates(RevealedValues(es)))
  {
    StatsOf(NumericEstimates(RevealedValues(es)))
  }

  /** The median the panel shows is the middle numeric revealed value, or the
      mean of the two middle ones, ranked by counting. */
  lemma CalculateStatsMedian(es: seq<Estimate>)
    requires NumericEstimates(RevealedValues(es)) != []
    ensures IsMedianOf(NumericEstimates(RevealedValues(es)), CalculateStats(es).median)
  {
    MedianIsMiddle(NumericEstimates(RevealedValues(es)));
  }

  /** The statistics do not depend on the order of the estimate rows. */
  lemma StatsPermutationInvariant(a: seq<Estimate>, b: seq<Estimate>)
    requires multiset(a) == multiset(b)
    ensures CalculateStats(a) == CalculateStats(b)
  {
    RevealedValuesPermutation(a, b);
    FilterMapPermutation(RevealedValues(a), RevealedValues(b), NumericValue);
    StatsOfPermutation(NumericEstimates(RevealedValues(a)), NumericEstimates(RevealedValues(b)));
  }

  /** The statistics depend only on the multiset of numbers, whichever rows
      they come from. */
  lemma StatsOfPermutation(xs: seq<real>, ys: seq<real>)
    requires multiset(xs) == multiset(ys)
    ensures StatsOf(xs) == StatsOf(ys)
  {
    assert |xs| == |multiset(xs)| == |multiset(ys)| == |ys|;
    if xs != [] {
      SortedUnique(SortAscending(xs), SortAscending(ys));
    }
  }

  function CountLess(s: seq<real>, v: real): nat {
    Count(s, (x: real) => x < v)
  }

  function CountAtMost(s: seq<real>, v: real): nat {
    Count(s, (x: real) => x <= v)
  }

  /** `v` is the `k`-th smallest element of `s` (counting from 0): fewer than
      `k + 1` elements lie below it and more than `k` lie at or below it. */
  predicate IsOrderStatistic(s: seq<real>, k: int, v: real) {
    v in s && CountLess(s, v) <= k < CountAtMost(s, v)
  }

  /** The `k`-th smallest element is well defined. */
  lemma OrderStatisticUnique(s: seq<real>, k: int, v: real, w: real)
    requires IsOrderStatistic(s, k, v) && IsOrderStatistic(s, k, w)
    ensures v == w
  {
    if v < w {
      CountMonotonic(s, (x: real) => x <= v, (x: real) => x < w);
    } else if w < v {
      CountMonotonic(s, (x: real) => x <= w, (x: real) => x < v);
    }
  }

  /** In an ascending sequence, the element at index `k` is the `k`-th smallest. */
  lemma SortedOrderStatistic(s: seq<real>, k: nat)
    requires Sorted(s) && k < |s|
    ensures IsOrderStatistic(s, k, s[k])
  {
    var v := s[k];
    var less, atMost := (x: real) => x < v, (x: real) => x <= v;
    assert s == s[..k] + s[k..];
    CountAppend(s[..k], s[k..], less);
    FilterNone(s[k..], less);
    assert s == s[..k + 1] + s[k + 1..];
    CountAppend(s[..k + 1], s[k + 1..], atMost);
    FilterAll(s[..k + 1], atMost);
  }

  lemma OrderStatisticPermutation(a: seq<real>, b: seq<real>, k: int, v: real)
    requires multiset(a) == multiset(b) && IsOrderStatistic(a, k, v)
    ensures IsOrderStatistic(b, k, v)
  {
    assert v in multiset(b);
    CountPermutation(a, b, (x: real) => x < v);
    CountPermutation(a, b, (x: real) => x <= v);
  }

  /** The median is the middle order statistic of the numbers, or the mean of
      the two middle ones for an even count. */
  /** `m` is the median of `nums` by rank: the order statistic of rank n/2 for
      an odd count, the mean of those of ranks n/2-1 and n/2 for an even one. */
  ghost predicate IsMedianOf(nums: seq<real>, m: real) {
    var n := |nums|;
    && (n % 2 == 1 ==> IsOrderStatistic(nums, n / 2, m))
    && (n % 2 == 0 ==>
          exists lo, hi {:trigger IsOrderStatistic(nums, n / 2 - 1, lo), IsOrderStatistic(nums, n / 2, hi)} ::
            && IsOrderStatistic(nums, n / 2 - 1, lo)
            && IsOrderStatistic(nums, n / 2, hi)
            && m == (lo + hi) / 2.0)
  }

  lemma MedianIsMiddle(nums: seq<real>)
    requires nums != []
    ensures IsMedianOf(nums, StatsOf(nums).median)
  {
    var t, n := SortAscending(nums), |nums|;
    assert |t| == |multiset(t)| == n;
    assert StatsOf(nums).median == MedianOfSorted(t);
    RankOfSorted(nums, t, n / 2);
    if n % 2 == 0 {
      RankOfSorted(nums, t, n / 2 - 1);
      var lo, hi := t[n / 2 - 1], t[n / 2];
      assert IsOrderStatistic(nums, n / 2 - 1, lo) && IsOrderStatistic(nums, n / 2, hi);
    }
  }

  /** The element at index `k` of a sorted arrangement is the `k`-th smallest
      of the original. */
  lemma RankOfSorted(nums: seq<real>, t: seq<real>, k: nat)
    requires Sorted(t) && multiset(t) == multiset(nums) && k < |t|
    ensures IsOrderStatistic(nums, k, t[k])
  {
    SortedOrderStatistic(t, k);
    OrderStatisticPermutation(t, nums, k, t[k]);
  }

  /** Already ascending numbers are summarised as they stand. */
  lemma StatsOfSorted(nums: seq<real>)
    requires Sorted(nums) && nums != []
    ensures StatsOf(nums) == Stats(RoundToTenth(Mean(nums)), MedianOfSorted(nums))
  {
    SortedUnique(SortAscending(nums), nums);
  }

  /** Numeric values 1, 2, 3, 5, 8 give average 3.8 and median 3. */
  lemma OddCountExample()
    ensures StatsOf([1.0, 2.0, 3.0, 5.0, 8.0]) == Stats(3.8, 3.0)
  {
    var nums := [1.0, 2.0, 3.0, 5.0, 8.0];
    assert Sum([8.0]) == 8.0;
    assert Sum([5.0, 8.0]) == 13.0;
    assert Sum([3.0, 5.0, 8.0]) == 16.0;
    assert Sum([2.0, 3.0, 5.0, 8.0]) == 18.0;
    assert Mean(nums) == 19.0 / 5.0 == 3.8;
    assert RoundToTenth(3.8) == 3.8 by {
      assert (3.8 * 10.0 + 0.5).Floor == 38;
    }
    assert MedianOfSorted(nums) == 3.0;
    assert Sorted(nums);
    StatsOfSorted(nums);
  }

  /** Numeric values 1, 2, 3, 5 give median 2.5. */
  lemma EvenCountExample()
    ensures StatsOf([1.0, 2.0, 3.0, 5.0]).median == 2.5
  {
    var nums := [1.0, 2.0, 3.0, 5.0];
    assert MedianOfSorted(nums) == (2.0 + 3.0) / 2.0 == 2.5;
    assert Sorted(nums);
    StatsOfSorted(nums);
  }

  /** What the statistics panel shows: the statistics and how many numeric
      estimates they are based on. */
  datatype Panel = Panel(stats: Stats, numericCount: nat)

  /** The panel is rendered only once cards are revealed and some row holds a
      non-empty estimate. */
  function StatsPanel(es: seq<Estimate>, revealed: bool): (p: Option<Panel>)
    ensures p.Some? <==> revealed && exists e :: e in es && ShownValue(e).Some?
    ensures p.Some? ==> p.value.stats == CalculateStats(es)
    ensures p.Some? ==> p.value.numericCount == Count(RevealedValues(es), IsNumericFace)
    ensures p.Some? ==> p.value.numericCount <= |RevealedValues(es)|
  {
    var values := RevealedValues(es);
    if revealed && |values| > 0 then
      assert values[0] in values;
      Some(Panel(CalculateStats(es), |NumericEstimates(values)|))
    else
      None
  }
}
