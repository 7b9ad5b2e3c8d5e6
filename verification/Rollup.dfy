/** What a baseline rollup holds, said of the samples themselves: which they are, how often, how they are spread and
    where their centre lies (src/analysis/compare.rs). */
module Rollup {
  import opened Options
  import opened Sorting
  import opened Baseline

  // ---------------------------------------------------------------- which samples

  /** The places of the records that have the metric and whose run is not gone, in order. */
  ghost predicate Places(idx: seq<nat>, records: seq<RunRecord>, m: Metric, gone: set<nat>) {
    && (forall i, j :: 0 <= i < j < |idx| ==> idx[i] < idx[j])
    && (forall i: nat :: i in idx <==> i < |records| && m in records[i].value && records[i].runId !in gone)
  }

  ghost predicate ReadAt(samples: seq<real>, idx: seq<nat>, records: seq<RunRecord>, m: Metric) {
    && |samples| == |idx|
    && forall k :: 0 <= k < |idx| ==> idx[k] < |records| && m in records[idx[k]].value && samples[k] == records[idx[k]].value[m]
  }

  /** One sample for each record that has the metric and is not gone, and nothing else. */
  ghost predicate AreSamples(samples: seq<real>, records: seq<RunRecord>, m: Metric, gone: set<nat>) {
    exists idx :: Places(idx, records, m, gone) && ReadAt(samples, idx, records, m)
  }

  lemma {:induction false} ValuesAreSamples(records: seq<RunRecord>, m: Metric, gone: set<nat>) returns (idx: seq<nat>)
    ensures Places(idx, records, m, gone) && ReadAt(Values(Kept(records, gone), m), idx, records, m)
  {
    if records == [] {
      idx := [];
    } else {
      hide Places, ReadAt;
      KeptStep(records, m, gone);
      idx := ValuesAreSamples(records[..|records| - 1], m, gone);
      idx := SamplesStep(records, m, gone, Values(Kept(records[..|records| - 1], gone), m), idx);
    }
  }

  lemma SamplesStep(records: seq<RunRecord>, m: Metric, gone: set<nat>, before: seq<real>, idx: seq<nat>) returns (next: seq<nat>)
    requires records != []
    requires Places(idx, records[..|records| - 1], m, gone) && ReadAt(before, idx, records[..|records| - 1], m)
    ensures Places(next, records, m, gone)
    ensures var last := records[|records| - 1];
            ReadAt(before + if m in last.value && last.runId !in gone then [last.value[m]] else [], next, records, m)
  {
    hide Places, ReadAt;
    var n := |records| - 1;
    var last := records[n];
    if m in last.value && last.runId !in gone {
      PlacesPush(idx, records, m, gone);
      ReadPush(before, idx, records, m);
      next := idx + [n];
    } else {
      PlacesSkip(idx, records, m, gone);
      ReadSkip(before, idx, records, m);
      next := idx;
      assert before + [] == before;
    }
  }

  lemma ReadPush(samples: seq<real>, idx: seq<nat>, records: seq<RunRecord>, m: Metric)
    requires records != [] && ReadAt(samples, idx, records[..|records| - 1], m) && m in records[|records| - 1].value
    ensures ReadAt(samples + [records[|records| - 1].value[m]], idx + [|records| - 1], records, m)
  {
  }

  lemma ReadSkip(samples: seq<real>, idx: seq<nat>, records: seq<RunRecord>, m: Metric)
    requires records != [] && ReadAt(samples, idx, records[..|records| - 1], m)
    ensures ReadAt(samples, idx, records, m)
  {
  }

  lemma KeptStep(records: seq<RunRecord>, m: Metric, gone: set<nat>)
    requires records != []
    ensures var n := |records| - 1;
            Values(Kept(records, gone), m)
            == Values(Kept(records[..n], gone), m)
             + if m in records[n].value && records[n].runId !in gone then [records[n].value[m]] else []
  {
    var n := |records| - 1;
    var front := Kept(records[..n], gone);
    if records[n].runId !in gone {
      assert (front + [records[n]])[..|front|] == front;
    } else {
      assert front + [] == front;
    }
  }

  lemma PlacesPush(idx: seq<nat>, records: seq<RunRecord>, m: Metric, gone: set<nat>)
    requires records != [] && Places(idx, records[..|records| - 1], m, gone)
    requires m in records[|records| - 1].value && records[|records| - 1].runId !in gone
    ensures Places(idx + [|records| - 1], records, m, gone)
  {
    var n := |records| - 1;
    assert forall k :: 0 <= k < |idx| ==> idx[k] in idx;
    forall i: nat
      ensures i in idx + [n] <==> i < |records| && m in records[i].value && records[i].runId !in gone
    {
      assert i in idx + [n] <==> i in idx || i == n;
    }
  }

  lemma PlacesSkip(idx: seq<nat>, records: seq<RunRecord>, m: Metric, gone: set<nat>)
    requires records != [] && Places(idx, records[..|records| - 1], m, gone)
    requires m !in records[|records| - 1].value || records[|records| - 1].runId in gone
    ensures Places(idx, records, m, gone)
  {
  }

  /** There is only one list of samples. */
  lemma SamplesUnique(a: seq<real>, b: seq<real>, records: seq<RunRecord>, m: Metric, gone: set<nat>)
    requires AreSamples(a, records, m, gone) && AreSamples(b, records, m, gone)
    ensures a == b
  {
    var i :| Places(i, records, m, gone) && ReadAt(a, i, records, m);
    var j :| Places(j, records, m, gone) && ReadAt(b, j, records, m);
    forall x: nat
      ensures x in i <==> x in j
    {
    }
    AscendingUnique(i, j);
  }

  // ---------------------------------------------------------------- centre and spread

  /** `x` is the `k`-th smallest, counting from 0. */
  ghost predicate IsRanked(x: real, samples: seq<real>, k: nat) {
    && x in samples
    && CountOf(samples, (y: real) => y < x) <= k < CountOf(samples, (y: real) => y <= x)
  }

  /** The middle sample, or half way between the two middle ones. */
  ghost predicate IsMedian(c: real, samples: seq<real>) {
    var n := |samples|;
    if n % 2 == 1 then IsRanked(c, samples, n / 2)
    else n > 0 && IsMidway(c, samples, n / 2 - 1, n / 2)
  }

  ghost predicate IsMidway(c: real, samples: seq<real>, low: nat, high: nat) {
    exists a, b :: IsRanked(a, samples, low) && IsRanked(b, samples, high) && c + c == a + b
  }

  ghost predicate IsMean(c: real, samples: seq<real>) {
    samples != [] && c * |samples| as real == Sum(samples)
  }

  /** The mean square distance from the arithmetic mean. */
  ghost predicate IsVariance(v: real, samples: seq<real>) {
    exists mean :: IsMean(mean, samples) && v * |samples| as real == SquaresAround(samples, mean)
  }

  lemma SortedRank(s: seq<real>, k: nat)
    requires Sorted(s) && k < |s|
    ensures IsRanked(s[k], s, k)
  {
    var x := s[k];
    var less, most := (y: real) => y < x, (y: real) => y <= x;
    assert s == s[..k] + s[k..] && s == s[..k + 1] + s[k + 1..];
    CountSplit(s[..k], s[k..], less);
    CountSplit(s[..k + 1], s[k + 1..], most);
    CountNone(s[k..], less);
    CountAll(s[..k + 1], most);
  }

  lemma {:induction false} CountNone(s: seq<real>, p: real -> bool)
    requires forall i :: 0 <= i < |s| ==> !p(s[i])
    ensures CountOf(s, p) == 0
  {
    if s != [] {
      CountNone(s[..|s| - 1], p);
    }
  }

  lemma {:induction false} CountAll(s: seq<real>, p: real -> bool)
    requires forall i :: 0 <= i < |s| ==> p(s[i])
    ensures CountOf(s, p) == |s|
  {
    if s != [] {
      CountAll(s[..|s| - 1], p);
    }
  }

  lemma {:induction false} CountMore(s: seq<real>, p: real -> bool, q: real -> bool)
    requires forall x :: p(x) ==> q(x)
    ensures CountOf(s, p) <= CountOf(s, q)
  {
    if s != [] {
      CountMore(s[..|s| - 1], p, q);
    }
  }

  lemma RankPermuted(x: real, s: seq<real>, t: seq<real>, k: nat)
    requires multiset(s) == multiset(t) && IsRanked(x, s, k)
    ensures IsRanked(x, t, k)
  {
    CountPermuted(s, t, (y: real) => y < x);
    CountPermuted(s, t, (y: real) => y <= x);
    assert x in multiset(s);
  }

  lemma RankUnique(x: real, y: real, samples: seq<real>, k: nat)
    requires IsRanked(x, samples, k) && IsRanked(y, samples, k)
    ensures x == y
  {
    if x < y {
      CountMore(samples, (z: real) => z <= x, (z: real) => z < y);
    } else if y < x {
      CountMore(samples, (z: real) => z <= y, (z: real) => z < x);
    }
  }

  lemma MedianOfSortIs(samples: seq<real>)
    requires samples != []
    ensures IsMedian(MedianOfSorted(Sort(samples)), samples)
  {
    var s, n := Sort(samples), |samples|;
    hide Sort;
    assert |s| == n && multiset(s) == multiset(samples);
    SortedRank(s, n / 2);
    RankPermuted(s[n / 2], s, samples, n / 2);
    if n % 2 == 0 {
      SortedRank(s, n / 2 - 1);
      RankPermuted(s[n / 2 - 1], s, samples, n / 2 - 1);
    }
    hide IsRanked;
  }

  lemma MedianUnique(c: real, d: real, samples: seq<real>)
    requires IsMedian(c, samples) && IsMedian(d, samples)
    ensures c == d
  {
    hide IsRanked;
    var n := |samples|;
    if n % 2 == 1 {
      RankUnique(c, d, samples, n / 2);
    } else {
      var a, b :| IsRanked(a, samples, n / 2 - 1) && IsRanked(b, samples, n / 2) && c + c == a + b;
      var e, f :| IsRanked(e, samples, n / 2 - 1) && IsRanked(f, samples, n / 2) && d + d == e + f;
      RankUnique(a, e, samples, n / 2 - 1);
      RankUnique(b, f, samples, n / 2);
    }
  }

  /** At least half of the samples lie at or below a median, and at least half at or above it. */
  lemma MedianHalves(c: real, samples: seq<real>)
    requires IsMedian(c, samples)
    ensures 2 * CountOf(samples, (y: real) => y <= c) >= |samples|
    ensures 2 * CountOf(samples, (y: real) => y >= c) >= |samples|
  {
    var n := |samples|;
    Complement(samples, c);
    if n % 2 == 0 {
      var a, b :| IsRanked(a, samples, n / 2 - 1) && IsRanked(b, samples, n / 2) && c + c == a + b;
      if b < a {
        CountMore(samples, (y: real) => y <= b, (y: real) => y < a);
      }
      CountMore(samples, (y: real) => y <= a, (y: real) => y <= c);
      CountMore(samples, (y: real) => y < c, (y: real) => y < b);
      if a == b {
        assert c == a;
      }
    }
  }

  lemma {:induction false} Complement(samples: seq<real>, c: real)
    ensures CountOf(samples, (y: real) => y >= c) + CountOf(samples, (y: real) => y < c) == |samples|
  {
    if samples != [] {
      Complement(samples[..|samples| - 1], c);
    }
  }

  lemma Shared(total: real, n: real, q: real)
    requires n > 0.0
    ensures q == total / n <==> q * n == total
  {
    var d := total / n;
    assert d * n == total;
    if q * n == total {
      assert (q - d) * n == 0.0;
      assert q - d == 0.0;
    }
  }

  lemma VariancePermuted(s: seq<real>, t: seq<real>)
    requires s != [] && t != [] && |s| == |t| && multiset(s) == multiset(t)
    ensures Variance(s) == Variance(t)
  {
    SumOfPermuted(s, t, (x: real) => x);
    var c := MeanOf(s);
    SumOfPermuted(s, t, (x: real) => (x - c) * (x - c));
  }

  lemma VarianceIs(samples: seq<real>, t: seq<real>)
    requires samples != [] && multiset(t) == multiset(samples)
    ensures IsMean(MeanOf(samples), samples) && t != [] && IsVariance(Variance(t), samples)
  {
    assert |t| == |multiset(t)| == |multiset(samples)| == |samples|;
    VariancePermuted(t, samples);
    hide Sum, SquaresAround, MedianOfSorted, Sort;
    var n, mean := |samples| as real, MeanOf(samples);
    Shared(Sum(samples), n, mean);
    Shared(SquaresAround(samples, mean), n, Variance(samples));
  }

  lemma VarianceUnique(v: real, w: real, samples: seq<real>)
    requires IsVariance(v, samples) && IsVariance(w, samples)
    ensures v == w
  {
    hide Sum, SquaresAround;
    var n := |samples| as real;
    var c :| IsMean(c, samples) && v * n == SquaresAround(samples, c);
    var d :| IsMean(d, samples) && w * n == SquaresAround(samples, d);
    Shared(Sum(samples), n, c);
    Shared(Sum(samples), n, d);
    Shared(SquaresAround(samples, c), n, v);
    Shared(SquaresAround(samples, d), n, w);
  }

  // ---------------------------------------------------------------- who is an outlier

  /** The square of two to the minus twenty-third. */
  const LEAST_VARIANCE: real := 1.0 / 70368744177664.0

  /** On this metric: two samples at least, some spread, and a value farther than two deviations from the median. */
  ghost predicate StandsOut(x: real, samples: seq<real>, median: real, variance: real) {
    && |samples| >= 2 && IsMedian(median, samples) && IsVariance(variance, samples) && variance >= LEAST_VARIANCE
    && (x - median) * (x - median) > 2.0 * 2.0 * variance
  }

  ghost predicate StandsOutOn(r: RunRecord, records: seq<RunRecord>, m: Metric) {
    && m in r.value
    && exists samples, median, variance ::
         AreSamples(samples, records, m, {}) && StandsOut(r.value[m], samples, median, variance)
  }

  /** The ids of the runs that stand out on some metric. */
  ghost function OutlierIds(records: seq<RunRecord>): set<nat> {
    set r <- records | (exists m: Metric :: StandsOutOn(r, records, m)) :: r.runId
  }

  lemma {:induction false} KeptWhole(records: seq<RunRecord>)
    ensures Kept(records, {}) == records
  {
    if records != [] {
      KeptWhole(records[..|records| - 1]);
      assert records == records[..|records| - 1] + [records[|records| - 1]];
    }
  }

  lemma MetricIsListed(m: Metric)
    ensures m in METRICS
  {
    assert METRICS[0] == AvgCpuPct && METRICS[1] == PeakCpuPct && METRICS[2] == PeakRssMb && METRICS[3] == PeakVramMb;
    assert METRICS[4] == UptimeSecs && METRICS[5] == TokensPerSecAvg && METRICS[6] == FpsAvg && METRICS[7] == GpuWattsAvg;
  }

  lemma AllSamples(records: seq<RunRecord>, m: Metric)
    ensures AreSamples(Values(records, m), records, m, {})
  {
    var idx := ValuesAreSamples(records, m, {});
    KeptWhole(records);
  }

  /** The rule of the code is that median and that variance. */
  lemma RuleIs(records: seq<RunRecord>, m: Metric)
    ensures var samples := Values(records, m);
            match Rule(records, m)
            case None => |samples| < 2 || exists v :: IsVariance(v, samples) && v < LEAST_VARIANCE
            case Some(b) =>
              |samples| >= 2 && IsMedian(b.median, samples) && IsVariance(b.variance, samples) && b.variance >= LEAST_VARIANCE
  {
    hide Values, Sort, Variance, MedianOfSorted, IsMedian, IsVariance;
    var samples := Values(records, m);
    assert EPSILON * EPSILON == LEAST_VARIANCE;
    if |samples| >= 2 {
      MedianOfSortIs(samples);
      VarianceIs(samples, Sort(samples));
      assert IsVariance(Variance(Sort(samples)), samples);
    }
  }

  lemma FlaggedByIff(r: RunRecord, records: seq<RunRecord>, m: Metric)
    ensures FlaggedBy(Rule(records, m), r, m) <==> StandsOutOn(r, records, m)
  {
    AllSamples(records, m);
    RuleIs(records, m);
    hide Values, AreSamples, IsMedian, IsVariance, Rule;
    var all := Values(records, m);
    if StandsOutOn(r, records, m) {
      var samples, median, variance :| AreSamples(samples, records, m, {}) && StandsOut(r.value[m], samples, median, variance);
      SamplesUnique(samples, all, records, m, {});
      match Rule(records, m) {
        case None =>
          var v :| IsVariance(v, all) && v < LEAST_VARIANCE;
          VarianceUnique(v, variance, all);
        case Some(b) =>
          MedianUnique(median, b.median, all);
          VarianceUnique(variance, b.variance, all);
      }
    }
    if FlaggedBy(Rule(records, m), r, m) {
      var b := Rule(records, m).value;
      assert StandsOut(r.value[m], all, b.median, b.variance);
    }
  }

  /** The outlier list is the runs that stand out, in order. */
  lemma OutliersStandOut(records: seq<RunRecord>)
    ensures forall id :: id in Outliers(records) <==> id in OutlierIds(records)
    ensures forall i, j :: 0 <= i < j < |Outliers(records)| ==> Outliers(records)[i] < Outliers(records)[j]
  {
    forall r <- records
      ensures Flagged(records, r) <==> exists m: Metric :: StandsOutOn(r, records, m)
    {
      forall m: Metric
        ensures m in METRICS && (FlaggedBy(Rule(records, m), r, m) <==> StandsOutOn(r, records, m))
      {
        MetricIsListed(m);
        FlaggedByIff(r, records, m);
      }
      hide StandsOutOn, FlaggedBy, Rule;
    }
    hide Flagged, StandsOutOn, Ascending;
  }

  // ---------------------------------------------------------------- the rollup

  /** A figure of the rollup, of the samples it was made of. */
  ghost predicate Describes(f: MeanVar, samples: seq<real>, strategy: Strategy) {
    && samples != [] && f.n == |samples| && IsVariance(f.variance, samples)
    && (strategy.Mean? ==> IsMean(f.centre, samples))
    && (strategy.Median? ==> IsMedian(f.centre, samples))
  }

  lemma StatDescribes(samples: seq<real>, strategy: Strategy)
    ensures Stat(samples, strategy).None? <==> samples == []
    ensures Stat(samples, strategy).Some? ==> Describes(Stat(samples, strategy).value, samples, strategy)
  {
    hide Sort, Variance, MedianOfSorted, IsMedian, IsVariance, MeanOf, IsMean;
    if samples != [] {
      MedianOfSortIs(samples);
      VarianceIs(samples, samples);
    }
  }

  /** Who has been dropped. */
  ghost function Gone(records: seq<RunRecord>, dropOutliers: bool): set<nat> {
    if dropOutliers then OutlierIds(records) else {}
  }

  lemma KeptIs(records: seq<RunRecord>, dropOutliers: bool)
    ensures var outliers := Outliers(records);
            (if dropOutliers && outliers != [] then Kept(records, IdSet(outliers)) else records)
            == Kept(records, Gone(records, dropOutliers))
  {
    OutliersStandOut(records);
    KeptWhole(records);
    hide OutlierIds, Outliers;
    var outliers := Outliers(records);
    var gone := Gone(records, dropOutliers);
    if !dropOutliers || outliers == [] {
      assert gone == {};
    } else {
      assert gone == IdSet(outliers);
    }
  }

  lemma FigureIs(records: seq<RunRecord>, strategy: Strategy, dropOutliers: bool, m: Metric)
    ensures m in FromRecordsWith(records, strategy, dropOutliers).0
    ensures FromRecordsWith(records, strategy, dropOutliers).0[m]
         == Stat(Values(Kept(records, Gone(records, dropOutliers)), m), strategy)
  {
    MetricIsListed(m);
    KeptIs(records, dropOutliers);
    hide Outliers, Kept, Gone, Stat, Values;
  }

  /** What the rollup says of a metric: nothing if and only if no sample is left; else, of one sample for each record that has the
      metric and has not been dropped as an outlier, their number, their variance around the arithmetic mean under
      either strategy, and as the centre their mean or their median. */
  lemma RollupDescribes(records: seq<RunRecord>, strategy: Strategy, dropOutliers: bool, m: Metric)
    ensures m in FromRecordsWith(records, strategy, dropOutliers).0
    ensures var figure := FromRecordsWith(records, strategy, dropOutliers).0[m];
            exists samples :: AreSamples(samples, records, m, Gone(records, dropOutliers))
              && (figure.None? <==> samples == []) && (figure.Some? ==> Describes(figure.value, samples, strategy))
  {
    var gone := Gone(records, dropOutliers);
    var samples := Values(Kept(records, gone), m);
    var idx := ValuesAreSamples(records, m, gone);
    assert AreSamples(samples, records, m, gone);
    FigureIs(records, strategy, dropOutliers, m);
    hide FromRecordsWith, Gone, Kept, Values, AreSamples, Stat, Describes;
    StatDescribes(samples, strategy);
  }
}
