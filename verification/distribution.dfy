/** The estimate distribution chart: once cards are revealed, the non-empty
    estimates are tallied per card value, the tallies are ordered, and the
    largest tally gives the consensus labels. */
module Distribution {
  import opened Optional
  import opened Seqs
  import opened Numbers
  import opened Estimates

  /** One bar of the chart: a card value and how many rows carry it. */
  datatype Bucket = Bucket(estimate: string, count: nat)

  predicate HasKey(bs: seq<Bucket>, v: string) {
    exists b :: b in bs && b.estimate == v
  }

  predicate KeysDistinct(bs: seq<Bucket>) {
    forall i, j :: 0 <= i < j < |bs| ==> bs[i].estimate != bs[j].estimate
  }

  predicate CountsPositive(bs: seq<Bucket>) {
    forall b | b in bs :: b.count >= 1
  }

  /** The sum of all tallies. */
  function TotalCount(bs: seq<Bucket>): nat {
    if |bs| == 0 then 0 else bs[0].count + TotalCount(bs[1..])
  }

  /** `acc[key] || 0`: the tally recorded for `key`. */
  function CountFor(bs: seq<Bucket>, key: string): nat {
    if |bs| == 0 then 0
    else if bs[0].estimate == key then bs[0].count
    else CountFor(bs[1..], key)
  }

  /** With distinct keys, looking a bucket's key up finds that bucket. */
  lemma {:induction false} CountForMember(bs: seq<Bucket>, i: nat)
    requires KeysDistinct(bs) && i < |bs|
    ensures CountFor(bs, bs[i].estimate) == bs[i].count
    decreases i
  {
    if i > 0 {
      CountForMember(bs[1..], i - 1);
    }
  }

  /** One step of the reduce: `acc[v] = (acc[v] || 0) + 1`. A new key is
      appended, so the entries keep first-seen order. */
  function Bump(bs: seq<Bucket>, v: string): (r: seq<Bucket>)
    ensures forall key :: CountFor(r, key) == CountFor(bs, key) + (if key == v then 1 else 0)
  {
    if |bs| == 0 then [Bucket(v, 1)]
    else if bs[0].estimate == v then [Bucket(v, bs[0].count + 1)] + bs[1..]
    else [bs[0]] + Bump(bs[1..], v)
  }

  lemma {:induction false} BumpTotal(bs: seq<Bucket>, v: string)
    ensures TotalCount(Bump(bs, v)) == TotalCount(bs) + 1
    decreases |bs|
  {
    if |bs| != 0 && bs[0].estimate != v {
      BumpTotal(bs[1..], v);
    }
  }

  /** Bumping adds the key `v` and no other. */
  lemma {:induction false} BumpKeys(bs: seq<Bucket>, v: string)
    ensures forall b | b in Bump(bs, v) :: b.estimate == v || HasKey(bs, b.estimate)
    ensures HasKey(Bump(bs, v), v)
    ensures forall b | b in bs :: HasKey(Bump(bs, v), b.estimate)
    decreases |bs|
  {
    var r := Bump(bs, v);
    if |bs| == 0 {
      assert r[0] in r;
    } else if bs[0].estimate == v {
      assert r[0] in r;
      assert forall b | b in bs :: b == bs[0] || b in bs[1..];
      assert forall b | b in bs[1..] :: b in bs && b in r;
    } else {
      BumpKeys(bs[1..], v);
      assert r == [bs[0]] + Bump(bs[1..], v);
      assert forall b | b in bs :: b == bs[0] || b in bs[1..];
      assert forall b | b in bs[1..] :: b in bs;
      assert forall b | b in Bump(bs[1..], v) :: b in r;
    }
  }

  /** Bumping `v` introduces no key other than `v`. */
  lemma {:induction false} BumpKeepsAbsent(bs: seq<Bucket>, v: string, key: string)
    requires KeyAbsent(bs, key) && key != v
    ensures KeyAbsent(Bump(bs, v), key)
    decreases |bs|
  {
    if |bs| != 0 && bs[0].estimate != v {
      BumpKeepsAbsent(bs[1..], v, key);
      var r := Bump(bs, v);
      assert r == [bs[0]] + Bump(bs[1..], v);
      forall j | 0 < j < |r| ensures r[j].estimate != key {
        assert r[j] == Bump(bs[1..], v)[j - 1];
      }
    }
  }

  lemma {:induction false} BumpShape(bs: seq<Bucket>, v: string)
    ensures KeysDistinct(bs) ==> KeysDistinct(Bump(bs, v))
    ensures CountsPositive(bs) ==> CountsPositive(Bump(bs, v))
    decreases |bs|
  {
    if |bs| != 0 && bs[0].estimate != v {
      var rest := bs[1..];
      BumpShape(rest, v);
      if KeysDistinct(bs) {
        assert KeysDistinct(rest) by {
          forall i, j | 0 <= i < j < |rest| ensures rest[i].estimate != rest[j].estimate {
            assert rest[i] == bs[i + 1] && rest[j] == bs[j + 1];
          }
        }
        assert KeyAbsent(rest, bs[0].estimate) by {
          forall j | 0 <= j < |rest| ensures rest[j].estimate != bs[0].estimate {
            assert rest[j] == bs[j + 1];
          }
        }
        BumpKeepsAbsent(rest, v, bs[0].estimate);
        DistinctCons(bs[0], Bump(rest, v));
      }
      assert forall b | b in rest :: b in bs;
    }
  }

  /** `estimateValues.reduce(...)` followed by `Object.entries(...)`. */
  function Tally(values: seq<string>): (r: seq<Bucket>)
    ensures forall key :: CountFor(r, key) == multiset(values)[key]
    decreases |values|
  {
    if |values| == 0 then []
    else
      var init, last := values[..|values| - 1], values[|values| - 1];
      assert values == init + [last];
      Bump(Tally(init), last)
  }

  /** A tally has one bucket per distinct value, every tally positive, and
      the tallies add up to the number of values. */
  lemma {:induction false} TallyShape(values: seq<string>)
    ensures TotalCount(Tally(values)) == |values|
    ensures KeysDistinct(Tally(values)) && CountsPositive(Tally(values))
    ensures forall b | b in Tally(values) :: b.estimate in values
    ensures forall v | v in values :: HasKey(Tally(values), v)
    decreases |values|
  {
    if |values| != 0 {
      var init, last := values[..|values| - 1], values[|values| - 1];
      assert values == init + [last];
      TallyShape(init);
      BumpTotal(Tally(init), last);
      BumpShape(Tally(init), last);
      BumpKeys(Tally(init), last);
      assert forall v | v in init :: v in values;
      assert forall v | v in values :: v in init || v == last;
    }
  }

  /** Every bucket of a tally carries exactly the number of occurrences of its
      value, at least one. */
  lemma TallyCounts(values: seq<string>)
    ensures forall b | b in Tally(values) :: b.count == multiset(values)[b.estimate] >= 1
  {
    var r := Tally(values);
    TallyShape(values);
    forall b | b in r ensures b.count == multiset(values)[b.estimate] >= 1 {
      var i :| 0 <= i < |r| && r[i] == b;
      CountForMember(r, i);
    }
  }

  /** Code-unit lexicographic order, standing in for `localeCompare`. */
  predicate LexLessEq(a: string, b: string) {
    |a| == 0 || (|b| > 0 && (a[0] < b[0] || (a[0] == b[0] && LexLessEq(a[1..], b[1..]))))
  }

  /** The comparator `(a, b) => ...` returns at most 0: numeric difference when
      both values parse as numbers, text order otherwise. */
  predicate Precedes(a: string, b: string) {
    if ParseNum(a).Some? && ParseNum(b).Some? then ParseNum(a).value <= ParseNum(b).value
    else LexLessEq(a, b)
  }

  predicate AllNumeric(bs: seq<Bucket>) {
    forall i :: 0 <= i < |bs| ==> ParseNum(bs[i].estimate).Some?
  }

  /** Every key is a number and the keys ascend by numeric value. */
  predicate NumericallySorted(bs: seq<Bucket>) {
    && AllNumeric(bs)
    && forall i, j :: 0 <= i < j < |bs| ==> ParseNum(bs[i].estimate).value <= ParseNum(bs[j].estimate).value
  }

  /** Every key of `bs` is a number no smaller than `lo`. */
  predicate NumericallyAbove(bs: seq<Bucket>, lo: real) {
    forall j :: 0 <= j < |bs| ==> ParseNum(bs[j].estimate).Some? && lo <= ParseNum(bs[j].estimate).value
  }

  lemma NumericallyAboveKept(lo: real, t: seq<Bucket>, u: seq<Bucket>)
    requires multiset(t) == multiset(u) && NumericallyAbove(u, lo)
    ensures NumericallyAbove(t, lo)
  {
    forall j | 0 <= j < |t| ensures ParseNum(t[j].estimate).Some? && lo <= ParseNum(t[j].estimate).value {
      assert t[j] in multiset(u);
      var k :| 0 <= k < |u| && u[k] == t[j];
    }
  }

  lemma SortedCons(b: Bucket, t: seq<Bucket>)
    requires NumericallySorted(t) && ParseNum(b.estimate).Some?
    requires NumericallyAbove(t, ParseNum(b.estimate).value)
    ensures NumericallySorted([b] + t)
  {
    var r := [b] + t;
    forall i | 0 < i < |r| ensures r[i] == t[i - 1] { }
  }

  /** Places `x` before the first bucket it precedes. */
  function InsertBucket(x: Bucket, s: seq<Bucket>): (r: seq<Bucket>)
    ensures multiset(r) == multiset(s) + multiset{x}
  {
    if |s| == 0 then [x]
    else if Precedes(x.estimate, s[0].estimate) then [x] + s
    else
      assert s == [s[0]] + s[1..];
      [s[0]] + InsertBucket(x, s[1..])
  }

  lemma {:induction false} InsertBucketTotal(x: Bucket, s: seq<Bucket>)
    ensures TotalCount(InsertBucket(x, s)) == TotalCount(s) + x.count
    decreases |s|
  {
    if |s| != 0 && !Precedes(x.estimate, s[0].estimate) {
      InsertBucketTotal(x, s[1..]);
    }
  }

  /** No bucket of `bs` has key `key`. */
  predicate KeyAbsent(bs: seq<Bucket>, key: string) {
    forall j :: 0 <= j < |bs| ==> bs[j].estimate != key
  }

  lemma KeyAbsentKept(key: string, t: seq<Bucket>, u: seq<Bucket>)
    requires multiset(t) == multiset(u) && KeyAbsent(u, key)
    ensures KeyAbsent(t, key)
  {
    forall j | 0 <= j < |t| ensures t[j].estimate != key {
      assert t[j] in multiset(u);
      var k :| 0 <= k < |u| && u[k] == t[j];
    }
  }

  lemma DistinctCons(b: Bucket, t: seq<Bucket>)
    requires KeysDistinct(t) && KeyAbsent(t, b.estimate)
    ensures KeysDistinct([b] + t)
  {
    var r := [b] + t;
    forall i, j | 0 <= i < j < |r| ensures r[i].estimate != r[j].estimate {
      assert r[j] == t[j - 1];
      if i > 0 {
        assert r[i] == t[i - 1];
      }
    }
  }

  lemma {:induction false} InsertBucketDistinct(x: Bucket, s: seq<Bucket>)
    requires KeysDistinct(s) && KeyAbsent(s, x.estimate)
    ensures KeysDistinct(InsertBucket(x, s))
    decreases |s|
  {
    if |s| == 0 {
    } else if Precedes(x.estimate, s[0].estimate) {
      DistinctCons(x, s);
    } else {
      var tail := s[1..];
      assert KeysDistinct(tail) && KeyAbsent(tail, x.estimate) && KeyAbsent(tail, s[0].estimate) by {
        forall i | 0 <= i < |tail| ensures tail[i] == s[i + 1] { }
      }
      InsertBucketDistinct(x, tail);
      var t := InsertBucket(x, tail);
      assert KeyAbsent(tail + [x], s[0].estimate);
      KeyAbsentKept(s[0].estimate, t, tail + [x]);
      DistinctCons(s[0], t);
    }
  }

  lemma {:induction false} InsertBucketSorted(x: Bucket, s: seq<Bucket>)
    requires NumericallySorted(s) && ParseNum(x.estimate).Some?
    ensures NumericallySorted(InsertBucket(x, s))
    decreases |s|
  {
    if |s| == 0 {
    } else if Precedes(x.estimate, s[0].estimate) {
      SortedCons(x, s);
    } else {
      var tail, lo := s[1..], ParseNum(s[0].estimate).value;
      assert NumericallySorted(tail) && NumericallyAbove(tail + [x], lo) by {
        forall i | 0 <= i < |tail| ensures tail[i] == s[i + 1] { }
      }
      InsertBucketSorted(x, tail);
      var t := InsertBucket(x, tail);
      NumericallyAboveKept(lo, t, tail + [x]);
      SortedCons(s[0], t);
    }
  }

  /** `.sort(comparator)`: a stable insertion sort under `Precedes`. */
  function SortBuckets(bs: seq<Bucket>): (r: seq<Bucket>)
    ensures multiset(r) == multiset(bs)
  {
    if |bs| == 0 then []
    else
      assert bs == [bs[0]] + bs[1..];
      InsertBucket(bs[0], SortBuckets(bs[1..]))
  }

  lemma {:induction false} SortBucketsTotal(bs: seq<Bucket>)
    ensures TotalCount(SortBuckets(bs)) == TotalCount(bs)
    decreases |bs|
  {
    if |bs| != 0 {
      SortBucketsTotal(bs[1..]);
      InsertBucketTotal(bs[0], SortBuckets(bs[1..]));
    }
  }

  lemma {:induction false} SortBucketsDistinct(bs: seq<Bucket>)
    requires KeysDistinct(bs)
    ensures KeysDistinct(SortBuckets(bs))
    decreases |bs|
  {
    if |bs| != 0 {
      var tail := bs[1..];
      assert KeysDistinct(tail) && KeyAbsent(tail, bs[0].estimate) by {
        forall i | 0 <= i < |tail| ensures tail[i] == bs[i + 1] { }
      }
      SortBucketsDistinct(tail);
      KeyAbsentKept(bs[0].estimate, SortBuckets(tail), tail);
      InsertBucketDistinct(bs[0], SortBuckets(tail));
    }
  }

  /** When every key is a number, the sorted distribution ascends by value. */
  lemma {:induction false} SortBucketsSorted(bs: seq<Bucket>)
    requires AllNumeric(bs)
    ensures NumericallySorted(SortBuckets(bs))
    decreases |bs|
  {
    if |bs| != 0 {
      var tail := bs[1..];
      assert AllNumeric(tail) by {
        forall i | 0 <= i < |tail| ensures tail[i] == bs[i + 1] { }
      }
      SortBucketsSorted(tail);
      InsertBucketSorted(bs[0], SortBuckets(tail));
    }
  }

  /** `Math.max(...distributionData.map((d) => d.count))`. */
  function MaxCount(bs: seq<Bucket>): (m: nat)
    requires |bs| > 0
    ensures exists i :: 0 <= i < |bs| && bs[i].count == m
    ensures forall i :: 0 <= i < |bs| ==> bs[i].count <= m
  {
    if |bs| == 1 then bs[0].count
    else
      var rest := MaxCount(bs[1..]);
      if bs[0].count >= rest then bs[0].count else rest
  }

  lemma {:induction false} CountWithinTotal(bs: seq<Bucket>, i: nat)
    requires i < |bs|
    ensures bs[i].count <= TotalCount(bs)
    decreases i
  {
    if i > 0 {
      CountWithinTotal(bs[1..], i - 1);
    }
  }

  /** `maxCount / totalEstimates`. */
  function ConsensusRatio(maxCount: nat, total: nat): real
    requires total > 0
  {
    maxCount as real / total as real
  }

  /** The "Strong consensus reached" banner: `maxCount / totalEstimates >= 0.6`. */
  predicate StrongConsensus(maxCount: nat, total: nat)
    requires total > 0
  {
    ConsensusRatio(maxCount, total) >= 0.6
  }

  /** The "Wide spread" banner: `maxCount / totalEstimates < 0.4` with more than
      two distinct values. */
  predicate WideSpread(maxCount: nat, total: nat, distinct: nat)
    requires total > 0
  {
    ConsensusRatio(maxCount, total) < 0.4 && distinct > 2
  }

  /** The banners' thresholds in whole numbers; the two never show together. */
  lemma ConsensusThresholds(maxCount: nat, total: nat, distinct: nat)
    requires total > 0
    ensures StrongConsensus(maxCount, total) <==> 5 * maxCount >= 3 * total
    ensures WideSpread(maxCount, total, distinct) <==> 5 * maxCount < 2 * total && distinct > 2
    ensures !(StrongConsensus(maxCount, total) && WideSpread(maxCount, total, distinct))
  {
    var m, t := maxCount as real, total as real;
    RatioThreshold(m, t, 0.6);
    RatioThreshold(m, t, 0.4);
  }

  /** For a positive denominator, `m / t >= c` exactly when `m >= c * t`. */
  lemma RatioThreshold(m: real, t: real, c: real)
    requires t > 0.0
    ensures m / t >= c <==> m >= c * t
  {
    var q := m / t;
    assert q * t == m;
    if q >= c {
      assert (q - c) * t >= 0.0;
    } else {
      assert (c - q) * t > 0.0;
    }
  }

  /** Everything the chart shows apart from layout. */
  datatype Chart = Chart(distribution: seq<Bucket>, maxCount: nat, totalEstimates: nat,
                         strongConsensus: bool, wideSpread: bool)

  /** The chart over the non-empty values; no chart when there are none
      (`distributionData.length === 0`). */
  function ChartOf(values: seq<string>): (r: Option<Chart>)
    ensures r.None? <==> values == []
    ensures r.Some? ==> && r.value.totalEstimates == |values|
                        && TotalCount(r.value.distribution) == |values|
                        && multiset(r.value.distribution) == multiset(Tally(values))
  {
    var dist := SortBuckets(Tally(values));
    TallyShape(values);
    SortBucketsTotal(Tally(values));
    if |dist| == 0 then
      None
    else
      var maxCount, total := MaxCount(dist), |values|;
      Some(Chart(dist, maxCount, total, StrongConsensus(maxCount, total),
                 WideSpread(maxCount, total, |dist|)))
  }

  /** The buckets: one per distinct value, each carrying that value's number
      of occurrences. */
  lemma ChartBuckets(values: seq<string>)
    requires values != []
    ensures var d := ChartOf(values).value.distribution;
      && KeysDistinct(d)
      && (forall b | b in d :: b.count == multiset(values)[b.estimate] >= 1)
      && (forall v | v in values :: HasKey(d, v))
  {
    var t := Tally(values);
    var d := SortBuckets(t);
    assert d == ChartOf(values).value.distribution;
    TallyShape(values);
    TallyCounts(values);
    SortBucketsDistinct(t);
    forall b | b in d ensures b in t {
      assert b in multiset(t);
    }
    forall v | v in values ensures HasKey(d, v) {
      var b :| b in t && b.estimate == v;
      assert b in multiset(d);
    }
  }

  /** When every value is a number, the buckets ascend by numeric value. */
  lemma ChartSorted(values: seq<string>)
    requires values != []
    requires forall v | v in values :: ParseNum(v).Some?
    ensures NumericallySorted(ChartOf(values).value.distribution)
  {
    var t := Tally(values);
    TallyShape(values);
    assert AllNumeric(t) by {
      forall i | 0 <= i < |t| ensures ParseNum(t[i].estimate).Some? {
        assert t[i] in t;
      }
    }
    SortBucketsSorted(t);
  }

  /** The summary figures: the highest tally is some bucket's tally, no bucket
      exceeds it, and it lies between 1 and the number of estimates; the
      banners follow the whole-number thresholds. */
  lemma ChartSummary(values: seq<string>)
    requires values != []
    ensures var c := ChartOf(values).value;
      && (exists b :: b in c.distribution && b.count == c.maxCount)
      && (forall b | b in c.distribution :: b.count <= c.maxCount)
      && 1 <= c.maxCount <= c.totalEstimates
      && (c.strongConsensus <==> 5 * c.maxCount >= 3 * c.totalEstimates)
      && (c.wideSpread <==> 5 * c.maxCount < 2 * c.totalEstimates && |c.distribution| > 2)
      && !(c.strongConsensus && c.wideSpread)
  {
    var c := ChartOf(values).value;
    var d := c.distribution;
    ChartBuckets(values);
    var i :| 0 <= i < |d| && d[i].count == c.maxCount;
    assert d[i] in d;
    CountWithinTotal(d, i);
    forall b | b in d ensures b.count <= c.maxCount {
      var k :| 0 <= k < |d| && d[k] == b;
    }
    ConsensusThresholds(c.maxCount, c.totalEstimates, |d|);
  }

  /** `EstimateDistributionChart`: nothing is drawn while cards are hidden or
      when no row carries an estimate. */
  function BuildChart(es: seq<Estimate>, revealed: bool): (r: Option<Chart>)
    ensures r.Some? <==> revealed && exists e :: e in es && ShownValue(e).Some?
    ensures r.Some? ==> r.value.totalEstimates == |RevealedValues(es)|
    ensures r.Some? ==> r == ChartOf(RevealedValues(es))
  {
    if !revealed || |es| == 0 then None
    else
      var values := RevealedValues(es);
      assert |values| > 0 ==> values[0] in values;
      ChartOf(values)
  }

  /** What the drawn chart shows, in terms of the estimate rows: one bar per
      distinct revealed value with its number of occurrences, `maxCount` the
      count of the most frequent value, and the two labels on their
      thresholds, never together. */
  lemma BuildChartContent(es: seq<Estimate>)
    requires RevealedValues(es) != []
    ensures BuildChart(es, true).Some?
    ensures var c := BuildChart(es, true).value;
      var values := RevealedValues(es);
      && KeysDistinct(c.distribution)
      && (forall b | b in c.distribution :: b.count == multiset(values)[b.estimate] >= 1)
      && (forall v | v in values :: HasKey(c.distribution, v))
      && (forall v | v in values :: multiset(values)[v] <= c.maxCount)
      && (exists v :: v in values && multiset(values)[v] == c.maxCount)
      && (c.strongConsensus <==> 5 * c.maxCount >= 3 * c.totalEstimates)
      && (c.wideSpread <==> 5 * c.maxCount < 2 * c.totalEstimates && |c.distribution| > 2)
      && !(c.strongConsensus && c.wideSpread)
  {
    var values := RevealedValues(es);
    assert values[0] in values;
    ChartBuckets(values);
    ChartSummary(values);
    MaxCountIsMode(values);
  }

  /** `maxCount` is the number of occurrences of the most frequent value. */
  lemma MaxCountIsMode(values: seq<string>)
    requires values != []
    ensures var m := ChartOf(values).value.maxCount;
      && (forall v | v in values :: multiset(values)[v] <= m)
      && (exists v :: v in values && multiset(values)[v] == m)
  {
    var c := ChartOf(values).value;
    var d := c.distribution;
    ChartBuckets(values);
    ChartSummary(values);
    forall v | v in values ensures multiset(values)[v] <= c.maxCount {
      var b :| b in d && b.estimate == v;
    }
    var top :| top in d && top.count == c.maxCount;
    assert top.estimate in multiset(values);
  }

  /** Estimates 5, 5, 5, 8 give a consensus of 0.75, a strong consensus. */
  lemma StrongConsensusExample()
    ensures ChartOf(["5", "5", "5", "8"]).Some?
    ensures var c := ChartOf(["5", "5", "5", "8"]).value;
      c.maxCount == 3 && ConsensusRatio(c.maxCount, c.totalEstimates) == 0.75 && c.strongConsensus
  {
    var values := ["5", "5", "5", "8"];
    assert multiset(values)["5"] == 3 && multiset(values)["8"] == 1;
    assert forall v | v in values :: v == "5" || v == "8";
    assert values[0] == "5" && values[0] in values;
    MaxCountIsMode(values);
    ChartSummary(values);
  }
}
