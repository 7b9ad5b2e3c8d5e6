/** Baseline statistics and outlier flags (src/analysis/compare.rs), over exact reals. The standard
    deviation is carried as its square, the variance; `SquaredTest` says why that loses nothing. */
module Baseline {
  import opened Options
  import opened Sorting
  import opened Resources

  datatype Metric =
    | AvgCpuPct | PeakCpuPct | PeakRssMb | PeakVramMb | UptimeSecs | TokensPerSecAvg | FpsAvg | GpuWattsAvg

  const METRICS: seq<Metric> :=
    [AvgCpuPct, PeakCpuPct, PeakRssMb, PeakVramMb, UptimeSecs, TokensPerSecAvg, FpsAvg, GpuWattsAvg]

  /** A run: its id, when its process was spawned, and the metrics that are present and finite. */
  datatype RunRecord = RunRecord(runId: nat, spawnTime: int, value: map<Metric, real>)

  datatype Strategy = Mean | Median

  /** Centre, population variance around the arithmetic mean, and sample count. */
  datatype MeanVar = MeanVar(centre: real, variance: real, n: nat)

  /** `f32::EPSILON`, two to the minus twenty-third. */
  const EPSILON: real := 1.0 / 8388608.0

  function Values(records: seq<RunRecord>, m: Metric): seq<real> {
    if records == [] then []
    else
      var last := records[|records| - 1];
      Values(records[..|records| - 1], m) + if m in last.value then [last.value[m]] else []
  }

  function SumOf(s: seq<real>, f: real -> real): real {
    if s == [] then 0.0 else SumOf(s[..|s| - 1], f) + f(s[|s| - 1])
  }

  function Sum(s: seq<real>): real {
    SumOf(s, (x: real) => x)
  }

  function SquaresAround(s: seq<real>, c: real): real {
    SumOf(s, (x: real) => (x - c) * (x - c))
  }

  function MeanOf(s: seq<real>): real
    requires s != []
  {
    Sum(s) / |s| as real
  }

  function Variance(s: seq<real>): real
    requires s != []
  {
    SquaresAround(s, MeanOf(s)) / |s| as real
  }

  /** The middle of a sorted sequence; the mean of the two middle values when the length is even. */
  function MedianOfSorted(s: seq<real>): real {
    if s == [] then 0.0
    else if |s| % 2 == 0 then (s[|s| / 2 - 1] + s[|s| / 2]) / 2.0
    else s[|s| / 2]
  }

  function Stat(values: seq<real>, strategy: Strategy): Option<MeanVar> {
    if values == [] then None
    else
      Some(MeanVar(if strategy.Mean? then MeanOf(values) else MedianOfSorted(Sort(values)), Variance(values), |values|))
  }

  /** Farther from the median than two standard deviations. */
  predicate IsFar(x: real, median: real, variance: real) {
    (x - median) * (x - median) > 4.0 * variance
  }

  /** What one metric's rule compares against. */
  datatype Bound = Bound(median: real, variance: real)

  /** No rule with fewer than two samples or with no spread to speak of. */
  function Rule(records: seq<RunRecord>, m: Metric): Option<Bound> {
    var sorted := Sort(Values(records, m));
    if |sorted| < 2 || Variance(sorted) < EPSILON * EPSILON then None
    else Some(Bound(MedianOfSorted(sorted), Variance(sorted)))
  }

  predicate FlaggedBy(rule: Option<Bound>, r: RunRecord, m: Metric) {
    rule.Some? && m in r.value && IsFar(r.value[m], rule.value.median, rule.value.variance)
  }

  /** The ids of the flagged ones among `records`. */
  function FlaggedIn(records: seq<RunRecord>, rule: Option<Bound>, m: Metric): set<nat> {
    set r <- records | FlaggedBy(rule, r, m) :: r.runId
  }

  predicate Flagged(records: seq<RunRecord>, r: RunRecord) {
    exists m <- METRICS :: FlaggedBy(Rule(records, m), r, m)
  }

  /** Every run flagged on at least one metric, once, in order. */
  function Outliers(records: seq<RunRecord>): seq<nat> {
    Ascending(set r <- records | Flagged(records, r) :: r.runId)
  }

  function Kept(records: seq<RunRecord>, drop: set<nat>): seq<RunRecord> {
    if records == [] then []
    else
      var last := records[|records| - 1];
      Kept(records[..|records| - 1], drop) + if last.runId in drop then [] else [last]
  }

  function IdSet(ids: seq<nat>): set<nat> {
    set id <- ids
  }

  function FromRecordsWith(records: seq<RunRecord>, strategy: Strategy, dropOutliers: bool)
    : (map<Metric, Option<MeanVar>>, seq<nat>)
  {
    var outliers := Outliers(records);
    var kept := if dropOutliers && outliers != [] then Kept(records, IdSet(outliers)) else records;
    (map m <- METRICS :: Stat(Values(kept, m), strategy), outliers)
  }

  // ---------------------------------------------------------------- the source's nested loops

  method IdentifyOutliers(records: seq<RunRecord>) returns (ids: seq<nat>)
    ensures ids == Outliers(records)
  {
    hide Rule, FlaggedBy, Ascending;
    var flagged: set<nat> := {};
    for k := 0 to |METRICS|
      invariant forall j, id :: 0 <= j < k && id in FlaggedIn(records, Rule(records, METRICS[j]), METRICS[j]) ==> id in flagged
      invariant forall id <- flagged :: exists j :: 0 <= j < k && id in FlaggedIn(records, Rule(records, METRICS[j]), METRICS[j])
    {
      var more := FlaggedIds(records, METRICS[k]);
      flagged := flagged + more;
    }
    forall id
      ensures id in flagged <==> exists r <- records :: Flagged(records, r) && r.runId == id
    {
      if r :| r in records && Flagged(records, r) && r.runId == id {
        var m :| m in METRICS && FlaggedBy(Rule(records, m), r, m);
        assert id in FlaggedIn(records, Rule(records, m), m);
      }
    }
    assert flagged == set r <- records | Flagged(records, r) :: r.runId;
    ids := Ascending(flagged);
  }

  method CollectValues(records: seq<RunRecord>, m: Metric) returns (values: seq<real>)
    ensures values == Values(records, m)
  {
    values := [];
    for i := 0 to |records|
      invariant values == Values(records[..i], m)
    {
      assert records[..i + 1][..i] == records[..i];
      if m in records[i].value {
        values := values + [records[i].value[m]];
      }
    }
    assert records[..|records|] == records;
  }

  /** One turn of the outer loop: collect, sort, compute, and mark. */
  method FlaggedIds(records: seq<RunRecord>, m: Metric) returns (ids: set<nat>)
    ensures ids == FlaggedIn(records, Rule(records, m), m)
  {
    hide Values, Sort, Variance, MedianOfSorted, IsFar;
    ids := {};
    var values := CollectValues(records, m);
    if |values| < 2 {
      return;
    }
    var sorted := Sort(values);
    var median := MedianOfSorted(sorted);
    var variance := Variance(sorted);
    if variance < EPSILON * EPSILON {
      return;
    }
    var rule := Some(Bound(median, variance));
    assert rule == Rule(records, m);
    hide Rule, FlaggedIn;
    assert ids == FlaggedIn([], rule, m) by {
      NoneFlagged(rule, m);
    }
    for i := 0 to |records|
      invariant ids == FlaggedIn(records[..i], rule, m)
    {
      FlaggedInStep(records[..i], records[i], rule, m);
      assert records[..i + 1] == records[..i] + [records[i]];
      if m in records[i].value && IsFar(records[i].value[m], median, variance) {
        ids := ids + {records[i].runId};
      }
    }
    assert records[..|records|] == records;
  }

  lemma NoneFlagged(rule: Option<Bound>, m: Metric)
    ensures FlaggedIn([], rule, m) == {}
  {
  }

  lemma FlaggedInStep(records: seq<RunRecord>, r: RunRecord, rule: Option<Bound>, m: Metric)
    ensures FlaggedIn(records + [r], rule, m)
            == FlaggedIn(records, rule, m) + if FlaggedBy(rule, r, m) then {r.runId} else {}
  {
    hide FlaggedBy;
    forall x
      ensures x in records + [r] <==> x in records || x == r
    {
    }
  }

  // ---------------------------------------------------------------- order does not matter

  lemma {:induction false} SumOfSplit(a: seq<real>, b: seq<real>, f: real -> real)
    ensures SumOf(a + b, f) == SumOf(a, f) + SumOf(b, f)
    decreases |b|
  {
    if b == [] {
      assert a + b == a;
    } else {
      assert (a + b)[..|a + b| - 1] == a + b[..|b| - 1];
      SumOfSplit(a, b[..|b| - 1], f);
    }
  }

  /** Where the last element of `s` sits in a rearrangement `t` of `s`. */
  lemma Locate<T>(s: seq<T>, t: seq<T>) returns (i: nat)
    requires s != [] && multiset(s) == multiset(t)
    ensures i < |t| && t[i] == s[|s| - 1]
    ensures t == t[..i] + [t[i]] + t[i + 1..]
    ensures multiset(s[..|s| - 1]) == multiset(t[..i] + t[i + 1..])
  {
    var x := s[|s| - 1];
    assert x in multiset(s) && x in t;
    i :| 0 <= i < |t| && t[i] == x;
    assert t == t[..i] + [t[i]] + t[i + 1..];
    assert s == s[..|s| - 1] + [x];
    assert multiset(s) == multiset(s[..|s| - 1]) + multiset{x};
    assert multiset(t) == multiset(t[..i] + t[i + 1..]) + multiset{x};
    assert multiset(s[..|s| - 1]) == multiset(s) - multiset{x};
  }

  lemma {:induction false} SumOfPermuted(s: seq<real>, t: seq<real>, f: real -> real)
    requires multiset(s) == multiset(t)
    ensures SumOf(s, f) == SumOf(t, f)
    decreases |s|
  {
    if s == [] {
      assert |multiset(t)| == 0;
    } else {
      var i := Locate(s, t);
      SumOfPermuted(s[..|s| - 1], t[..i] + t[i + 1..], f);
      SumOfSplit(t[..i], t[i + 1..], f);
      SumOfSplit(t[..i], [t[i]], f);
      SumOfSplit(t[..i] + [t[i]], t[i + 1..], f);
      assert [t[i]][..0] == [];
    }
  }

  lemma {:induction false} ValuesSplit(a: seq<RunRecord>, b: seq<RunRecord>, m: Metric)
    ensures Values(a + b, m) == Values(a, m) + Values(b, m)
    decreases |b|
  {
    if b == [] {
      assert a + b == a;
    } else {
      assert (a + b)[..|a + b| - 1] == a + b[..|b| - 1];
      ValuesSplit(a, b[..|b| - 1], m);
    }
  }

  lemma {:induction false} ValuesPermuted(s: seq<RunRecord>, t: seq<RunRecord>, m: Metric)
    requires multiset(s) == multiset(t)
    ensures multiset(Values(s, m)) == multiset(Values(t, m))
    decreases |s|
  {
    if s == [] {
      assert |multiset(t)| == 0;
    } else {
      var i := Locate(s, t);
      ValuesPermuted(s[..|s| - 1], t[..i] + t[i + 1..], m);
      ValuesSplit(t[..i], t[i + 1..], m);
      ValuesSplit(t[..i], [t[i]], m);
      ValuesSplit(t[..i] + [t[i]], t[i + 1..], m);
      assert [t[i]][..0] == [];
    }
  }

  lemma {:induction false} KeptSplit(a: seq<RunRecord>, b: seq<RunRecord>, drop: set<nat>)
    ensures Kept(a + b, drop) == Kept(a, drop) + Kept(b, drop)
    decreases |b|
  {
    if b == [] {
      assert a + b == a;
    } else {
      assert (a + b)[..|a + b| - 1] == a + b[..|b| - 1];
      KeptSplit(a, b[..|b| - 1], drop);
    }
  }

  lemma {:induction false} KeptPermuted(s: seq<RunRecord>, t: seq<RunRecord>, drop: set<nat>)
    requires multiset(s) == multiset(t)
    ensures multiset(Kept(s, drop)) == multiset(Kept(t, drop))
    decreases |s|
  {
    if s == [] {
      assert |multiset(t)| == 0;
    } else {
      var i := Locate(s, t);
      KeptPermuted(s[..|s| - 1], t[..i] + t[i + 1..], drop);
      KeptSplit(t[..i], t[i + 1..], drop);
      KeptSplit(t[..i], [t[i]], drop);
      KeptSplit(t[..i] + [t[i]], t[i + 1..], drop);
      assert [t[i]][..0] == [];
    }
  }

  lemma StatPermuted(s: seq<real>, t: seq<real>, strategy: Strategy)
    requires multiset(s) == multiset(t)
    ensures Stat(s, strategy) == Stat(t, strategy)
    ensures Sort(s) == Sort(t)
  {
    assert |s| == |multiset(s)| == |multiset(t)| == |t|;
    SortedUnique(Sort(s), Sort(t));
    if s != [] {
      SumOfPermuted(s, t, (x: real) => x);
      var c := MeanOf(s);
      SumOfPermuted(s, t, (x: real) => (x - c) * (x - c));
    }
  }

  lemma RulePermuted(s: seq<RunRecord>, t: seq<RunRecord>, m: Metric)
    requires multiset(s) == multiset(t)
    ensures Rule(s, m) == Rule(t, m)
  {
    ValuesPermuted(s, t, m);
    StatPermuted(Values(s, m), Values(t, m), Mean);
  }

  lemma OutliersPermuted(s: seq<RunRecord>, t: seq<RunRecord>)
    requires multiset(s) == multiset(t)
    ensures Outliers(s) == Outliers(t)
  {
    hide Rule, FlaggedBy, Ascending;
    forall m
      ensures Rule(s, m) == Rule(t, m)
    {
      RulePermuted(s, t, m);
    }
    assert forall r :: Flagged(s, r) == Flagged(t, r);
    assert forall r :: r in s <==> r in multiset(s);
    assert forall r :: r in t <==> r in multiset(t);
    assert forall r :: r in s <==> r in t;
    assert (set r <- s | Flagged(s, r) :: r.runId) == (set r <- t | Flagged(t, r) :: r.runId);
  }

  /** The whole rollup, for either strategy and either drop setting, depends on the bag of records
      only: same centre, dispersion and count for every metric, same outlier list. */
  lemma RollupIgnoresOrder(s: seq<RunRecord>, t: seq<RunRecord>, strategy: Strategy, dropOutliers: bool)
    requires multiset(s) == multiset(t)
    ensures FromRecordsWith(s, strategy, dropOutliers) == FromRecordsWith(t, strategy, dropOutliers)
  {
    hide Outliers, Stat, Values, Kept;
    OutliersPermuted(s, t);
    var outliers := Outliers(s);
    var drop := IdSet(outliers);
    KeptPermuted(s, t, drop);
    var ks := if dropOutliers && outliers != [] then Kept(s, drop) else s;
    var kt := if dropOutliers && outliers != [] then Kept(t, drop) else t;
    forall m: Metric
      ensures Stat(Values(ks, m), strategy) == Stat(Values(kt, m), strategy)
    {
      ValuesPermuted(ks, kt, m);
      StatPermuted(Values(ks, m), Values(kt, m), strategy);
    }
    assert (map m <- METRICS :: Stat(Values(ks, m), strategy)) == (map m <- METRICS :: Stat(Values(kt, m), strategy));
  }

  // ---------------------------------------------------------------- outliers are a minority

  /** How many elements of `s` satisfy `p`. */
  function CountOf(s: seq<real>, p: real -> bool): (n: nat)
    ensures n <= |s|
  {
    if s == [] then 0 else CountOf(s[..|s| - 1], p) + if p(s[|s| - 1]) then 1 else 0
  }

  /** For a non-negative `sigma` with `sigma * sigma == variance`, the code's two comparisons on the
      standard deviation are the squared ones on the variance. */
  lemma SquaredTest(x: real, median: real, sigma: real, variance: real)
    requires sigma >= 0.0 && sigma * sigma == variance
    ensures (if x >= median then x - median else median - x) > 2.0 * sigma <==> IsFar(x, median, variance)
    ensures sigma < EPSILON <==> variance < EPSILON * EPSILON
  {
    var d := if x >= median then x - median else median - x;
    assert (x - median) * (x - median) == d * d;
    SquareOrder(2.0 * sigma, d);
    SquareOrder(sigma, EPSILON);
    Quadruple(sigma);
  }

  lemma Quadruple(a: real)
    ensures (2.0 * a) * (2.0 * a) == 4.0 * (a * a)
  {
  }

  lemma SquareOrder(a: real, b: real)
    requires 0.0 <= a && 0.0 <= b
    ensures a < b <==> a * a < b * b
  {
    if a < b {
      SquareLess(a, b);
    } else {
      Scale(b, a, a);
      Scale(b, a, b);
    }
  }

  lemma SquareLess(a: real, b: real)
    requires 0.0 <= a < b
    ensures a * a < b * b
  {
    Positive(b - a, b + a);
    assert (b - a) * (b + a) == b * b - a * a;
  }

  lemma Positive(a: real, b: real)
    requires a > 0.0 && b > 0.0
    ensures a * b > 0.0
  {
  }

  lemma Scale(a: real, b: real, k: real)
    requires a <= b && k >= 0.0
    ensures a * k <= b * k
  {
    assert (b - a) * k >= 0.0;
  }

  lemma SquareNotNegative(a: real)
    ensures a * a >= 0.0
  {
    if a >= 0.0 {
      Scale(0.0, a, a);
    } else {
      Scale(0.0, -a, -a);
      assert (-a) * (-a) == a * a;
    }
  }

  function Deviations(s: seq<real>, c: real): real {
    SumOf(s, (x: real) => x - c)
  }

  lemma {:induction false} DeviationsAre(s: seq<real>, c: real)
    ensures Deviations(s, c) == Sum(s) - |s| as real * c
  {
    if s != [] {
      DeviationsAre(s[..|s| - 1], c);
      OneMore((|s| - 1) as real, c);
    }
  }

  lemma OneMore(n: real, c: real)
    ensures (n + 1.0) * c == n * c + c
  {
  }

  lemma DeviationsCancel(s: seq<real>)
    requires s != []
    ensures Deviations(s, MeanOf(s)) == 0.0
    ensures SquaresAround(s, MeanOf(s)) == |s| as real * Variance(s)
    ensures Variance(s) >= 0.0
  {
    DeviationsAre(s, MeanOf(s));
    Divide(Sum(s), |s| as real);
    Divide(SquaresAround(s, MeanOf(s)), |s| as real);
    SquaresNotNegative(s, MeanOf(s));
  }

  lemma Divide(a: real, n: real)
    requires n > 0.0
    ensures n * (a / n) == a
    ensures a >= 0.0 ==> a / n >= 0.0
  {
  }

  lemma {:induction false} SquaresNotNegative(s: seq<real>, c: real)
    ensures SquaresAround(s, c) >= 0.0
  {
    if s != [] {
      SquaresNotNegative(s[..|s| - 1], c);
      SquareNotNegative(s[|s| - 1] - c);
    }
  }

  lemma SumsStep(s: seq<real>, c: real)
    requires s != []
    ensures var (front, t) := (s[..|s| - 1], s[|s| - 1] - c);
            && SquaresAround(s, c) == SquaresAround(front, c) + t * t
            && Deviations(s, c) == Deviations(front, c) + t
  {
  }

  /** `shifted` is the sum of `n` squares taken `e` away from where `total` and `u` are taken. */
  predicate Shifted(shifted: real, total: real, u: real, n: real, e: real) {
    shifted == total - 2.0 * e * u + n * (e * e)
  }

  /** Squares around any point, from squares around another one. */
  lemma {:induction false} SquaresShift(s: seq<real>, mu: real, e: real)
    ensures Shifted(SquaresAround(s, mu + e), SquaresAround(s, mu), Deviations(s, mu), |s| as real, e)
  {
    hide SquaresAround, Deviations, Shifted;
    if s == [] {
      NothingToShift(mu, e);
    } else {
      var n, x := |s| - 1, s[|s| - 1];
      SumsStep(s, mu);
      SumsStep(s, mu + e);
      SquaresShift(s[..n], mu, e);
      assert |s| as real == n as real + 1.0;
      ShiftStep(SquaresAround(s[..n], mu + e), SquaresAround(s[..n], mu), Deviations(s[..n], mu), n as real, x - mu, x - (mu + e), e,
                SquaresAround(s, mu + e), SquaresAround(s, mu), Deviations(s, mu), |s| as real);
    }
  }

  lemma NothingToShift(mu: real, e: real)
    ensures Shifted(SquaresAround([], mu + e), SquaresAround([], mu), Deviations([], mu), 0.0, e)
  {
  }

  /** One more value, `t` away from the one point and `v` from the other. */
  lemma ShiftStep(shifted: real, total: real, u: real, n: real, t: real, v: real, e: real,
                  shifted': real, total': real, u': real, n': real)
    requires Shifted(shifted, total, u, n, e) && v == t - e
    requires shifted' == shifted + v * v && total' == total + t * t && u' == u + t && n' == n + 1.0
    ensures Shifted(shifted', total', u', n', e)
  {
    assert v * v == t * t - 2.0 * e * t + e * e;
    OneMore(n, e * e);
    assert 2.0 * e * (u + t) == 2.0 * e * u + 2.0 * e * t;
  }

  /** `t` is on `d`'s side of zero, at least as far out. */
  predicate Beyond(t: real, d: real) {
    if d >= 0.0 then t >= d else t <= d
  }

  /** `total` pays for `c` far values out of `n`. */
  predicate Covered(total: real, u: real, c: real, n: real, d: real) {
    total + 2.0 * d * u >= (4.0 * c - n) * (d * d)
  }

  /** Values at or beyond `mu + d` are paid for by the squares around `mu`: `t * t + 2 d t` is at least
      `3 d * d` beyond the point and at least `-d * d` anywhere. */
  lemma {:induction false} FarHalfCosts(s: seq<real>, mu: real, d: real, p: real -> bool)
    requires forall x :: p(x) <==> Beyond(x - mu, d)
    ensures Covered(SquaresAround(s, mu), Deviations(s, mu), CountOf(s, p) as real, |s| as real, d)
  {
    hide Beyond, Covered, SquaresAround, Deviations, CountOf;
    if s == [] {
      NothingToCover(mu, d, p);
    } else {
      var n := |s| - 1;
      assert |s| as real == n as real + 1.0;
      SumsStep(s, mu);
      CountStep(s, p);
      FarHalfCosts(s[..n], mu, d, p);
      CostStep(SquaresAround(s[..n], mu), Deviations(s[..n], mu), CountOf(s[..n], p) as real, n as real,
               s[n] - mu, d, p(s[n]),
               SquaresAround(s, mu), Deviations(s, mu), CountOf(s, p) as real, |s| as real);
    }
  }

  lemma NothingToCover(mu: real, d: real, p: real -> bool)
    ensures Covered(SquaresAround([], mu), Deviations([], mu), CountOf([], p) as real, 0.0, d)
  {
  }

  lemma CountStep(s: seq<real>, p: real -> bool)
    requires s != []
    ensures var front := CountOf(s[..|s| - 1], p) as real;
            CountOf(s, p) as real == if p(s[|s| - 1]) then front + 1.0 else front
  {
  }

  /** One more value, `t` away from `mu`; `far` says whether it counts. */
  lemma CostStep(total: real, u: real, c: real, n: real, t: real, d: real, far: bool,
                 total': real, u': real, c': real, n': real)
    requires Covered(total, u, c, n, d) && far == Beyond(t, d)
    requires total' == total + t * t && u' == u + t && c' == (if far then c + 1.0 else c) && n' == n + 1.0
    ensures Covered(total', u', c', n', d)
  {
    var q := d * d;
    TermCosts(t, d);
    hide Beyond;
    assert 2.0 * d * u' == 2.0 * d * u + 2.0 * d * t;
    if far {
      assert (4.0 * c' - n') * q == (4.0 * c - n) * q + 3.0 * q;
    } else {
      assert (4.0 * c' - n') * q == (4.0 * c - n) * q - q;
    }
  }

  lemma TermCosts(t: real, d: real)
    ensures t * t + 2.0 * d * t >= -(d * d)
    ensures Beyond(t, d) ==> t * t + 2.0 * d * t >= 3.0 * (d * d)
  {
    SquareNotNegative(t + d);
    assert (t + d) * (t + d) == t * t + 2.0 * d * t + d * d;
    if Beyond(t, d) {
      if d >= 0.0 {
        Scale(0.0, t - d, t + 3.0 * d);
      } else {
        Scale(0.0, d - t, -t - 3.0 * d);
        assert (d - t) * (-t - 3.0 * d) == (t - d) * (t + 3.0 * d);
      }
      assert (t - d) * (t + 3.0 * d) == t * t + 2.0 * d * t - 3.0 * (d * d);
    }
  }

  lemma {:induction false} CountTail(s: seq<real>, p: real -> bool, from: nat)
    requires from <= |s| && forall i :: from <= i < |s| ==> p(s[i])
    ensures CountOf(s, p) >= |s| - from
  {
    if from < |s| {
      CountTail(s[..|s| - 1], p, from);
    }
  }

  lemma {:induction false} CountHead(s: seq<real>, p: real -> bool, upto: nat)
    requires upto <= |s| && forall i :: 0 <= i < upto ==> p(s[i])
    ensures CountOf(s, p) >= upto
  {
    if upto > 0 {
      CountHead(s[..|s| - 1], p, if upto == |s| then upto - 1 else upto);
    }
  }

  /** At least half of a sorted sequence lies at or beyond its median, seen from any point. */
  lemma HalfBeyondMedian(s: seq<real>, mu: real, p: real -> bool)
    requires Sorted(s) && s != []
    requires forall x :: p(x) <==> Beyond(x - mu, MedianOfSorted(s) - mu)
    ensures 2 * CountOf(s, p) >= |s|
  {
    var n, m := |s|, MedianOfSorted(s);
    if m - mu >= 0.0 {
      forall i | n / 2 <= i < n
        ensures p(s[i])
      {
        assert s[n / 2] <= s[i] && (n % 2 == 0 ==> s[n / 2 - 1] <= s[n / 2]);
      }
      CountTail(s, p, n / 2);
    } else {
      forall i | 0 <= i < (n + 1) / 2
        ensures p(s[i])
      {
        if n % 2 == 0 {
          assert s[i] <= s[n / 2 - 1] <= s[n / 2];
        } else {
          assert s[i] <= s[n / 2];
        }
      }
      CountHead(s, p, (n + 1) / 2);
    }
  }

  /** The median lies within one standard deviation of the mean. */
  lemma MedianNearMean(s: seq<real>)
    requires Sorted(s) && s != []
    ensures var d := MedianOfSorted(s) - MeanOf(s);
            d * d <= Variance(s)
  {
    hide MedianOfSorted, MeanOf, Variance, SquaresAround, Deviations, CountOf;
    var mu, d := MeanOf(s), MedianOfSorted(s) - MeanOf(s);
    var p := (x: real) => Beyond(x - mu, d);
    HalfBeyondMedian(s, mu, p);
    FarHalfCosts(s, mu, d, p);
    DeviationsCancel(s);
    SquareNotNegative(d);
    assert 2.0 * d * Deviations(s, mu) == 0.0;
    ShareOf(SquaresAround(s, mu), 4.0 * CountOf(s, p) as real - |s| as real, |s| as real, d * d, Variance(s));
  }

  lemma ShareOf(total: real, k: real, n: real, q: real, v: real)
    requires total >= k * q && k >= n > 0.0 && q >= 0.0 && total == n * v
    ensures q <= v
  {
    Scale(n, k, q);
    Cancel(n, q, v);
  }

  lemma Cancel(n: real, a: real, b: real)
    requires n > 0.0
    ensures n * a <= n * b <==> a <= b
  {
    if a > b {
      assert n * (a - b) > 0.0;
    } else {
      Scale(a, b, n);
    }
  }

  /** Flagged values are expensive: each costs more than four variances around the median. */
  lemma {:induction false} FarValuesCost(s: seq<real>, m: real, variance: real, p: real -> bool)
    requires variance >= 0.0 && forall x :: p(x) <==> IsFar(x, m, variance)
    ensures SquaresAround(s, m) >= CountOf(s, p) as real * (4.0 * variance)
    ensures CountOf(s, p) > 0 ==> SquaresAround(s, m) > CountOf(s, p) as real * (4.0 * variance)
  {
    if s != [] {
      var n := |s| - 1;
      FarValuesCost(s[..n], m, variance, p);
      SquareNotNegative(s[n] - m);
      OneMore(CountOf(s[..n], p) as real, 4.0 * variance);
    }
  }

  /** However the values lie, strictly fewer than half of them are more than two standard deviations
      from their median. */
  lemma FarValuesAreMinority(s: seq<real>, p: real -> bool)
    requires Sorted(s) && s != []
    requires forall x :: p(x) <==> IsFar(x, MedianOfSorted(s), Variance(s))
    ensures 2 * CountOf(s, p) < |s|
  {
    hide MedianOfSorted, MeanOf, Variance, SquaresAround, Deviations, CountOf, IsFar;
    var n, mu, v, c := |s| as real, MeanOf(s), Variance(s), CountOf(s, p) as real;
    var d := MedianOfSorted(s) - mu;
    MedianNearMean(s);
    DeviationsCancel(s);
    FarValuesCost(s, mu + d, v, p);
    SquaresShift(s, mu, d);
    Cancel(n, d * d, v);
    assert SquaresAround(s, mu + d) <= 2.0 * (n * v);
    if 2.0 * c >= n {
      Scale(n, 2.0 * c, 2.0 * v);
      Regroup(c, n, v);
      assert false;
    }
  }

  lemma Regroup(c: real, n: real, v: real)
    ensures n * (2.0 * v) == 2.0 * (n * v) && 2.0 * c * (2.0 * v) == c * (4.0 * v)
  {
  }

  lemma {:induction false} CountSplit(a: seq<real>, b: seq<real>, p: real -> bool)
    ensures CountOf(a + b, p) == CountOf(a, p) + CountOf(b, p)
    decreases |b|
  {
    if b == [] {
      assert a + b == a;
    } else {
      assert (a + b)[..|a + b| - 1] == a + b[..|b| - 1];
      CountSplit(a, b[..|b| - 1], p);
    }
  }

  lemma {:induction false} CountPermuted(s: seq<real>, t: seq<real>, p: real -> bool)
    requires multiset(s) == multiset(t)
    ensures CountOf(s, p) == CountOf(t, p)
    decreases |s|
  {
    if s == [] {
      assert |multiset(t)| == 0;
    } else {
      var i := Locate(s, t);
      CountPermuted(s[..|s| - 1], t[..i] + t[i + 1..], p);
      CountSplit(t[..i], t[i + 1..], p);
      CountSplit(t[..i], [t[i]], p);
      CountSplit(t[..i] + [t[i]], t[i + 1..], p);
      assert [t[i]][..0] == [];
    }
  }

  lemma ValuesStep(records: seq<RunRecord>, r: RunRecord, m: Metric, p: real -> bool)
    ensures Values(records, m) + (if m in r.value then [r.value[m]] else []) == Values(records + [r], m)
    ensures CountOf(Values(records + [r], m), p)
            == CountOf(Values(records, m), p) + if m in r.value && p(r.value[m]) then 1 else 0
  {
    assert (records + [r])[..|records|] == records;
    var values := Values(records, m);
    assert Values(records + [r], m) == values + if m in r.value then [r.value[m]] else [];
    if m in r.value {
      assert (values + [r.value[m]])[..|values|] == values;
    } else {
      assert values + [] == values;
    }
  }

  lemma {:induction false} FlaggedAreCounted(records: seq<RunRecord>, rule: Option<Bound>, m: Metric, p: real -> bool)
    requires rule.Some? && forall x :: p(x) <==> IsFar(x, rule.value.median, rule.value.variance)
    ensures |FlaggedIn(records, rule, m)| <= CountOf(Values(records, m), p)
  {
    if records == [] {
      assert FlaggedIn(records, rule, m) == {};
    } else {
      hide Values, CountOf, FlaggedIn, IsFar;
      var n := |records| - 1;
      FlaggedAreCounted(records[..n], rule, m, p);
      assert records == records[..n] + [records[n]];
      FlaggedInStep(records[..n], records[n], rule, m);
      ValuesStep(records[..n], records[n], m, p);
    }
  }

  /** On every metric, strictly fewer than half of the samples belong to a flagged run. */
  lemma OutliersAreMinority(records: seq<RunRecord>, m: Metric)
    requires Values(records, m) != []
    ensures 2 * |FlaggedIn(records, Rule(records, m), m)| < |Values(records, m)|
  {
    var rule := Rule(records, m);
    if rule.None? {
      assert FlaggedIn(records, rule, m) == {};
    } else {
      hide Values, FlaggedIn, Sort, Variance, MedianOfSorted, IsFar, CountOf;
      var values := Values(records, m);
      assert rule.value == Bound(MedianOfSorted(Sort(values)), Variance(Sort(values)));
      hide Rule;
      var p := (x: real) => IsFar(x, rule.value.median, rule.value.variance);
      FlaggedAreCounted(records, rule, m, p);
      CountPermuted(values, Sort(values), p);
      FarValuesAreMinority(Sort(values), p);
    }
  }

  // ---------------------------------------------------------------- dropping outliers

  /** The metrics that every stored run has: plain integers in the summary, never missing and always
      finite. (The two CPU averages are missing only when they are not finite.) */
  const MANDATORY: seq<Metric> := [PeakRssMb, PeakVramMb, UptimeSecs]

  predicate Storable(r: RunRecord) {
    forall m <- MANDATORY :: m in r.value
  }

  /** The metrics that a summary takes from the process itself. */
  const SUMMARY: set<Metric> := {AvgCpuPct, PeakCpuPct, PeakRssMb, PeakVramMb, UptimeSecs}

  const MEGABYTE: nat := 1048576

  /** `r` is the summary of a process with these readings. (The averages of the telemetry are free.) */
  ghost predicate Summarises(r: RunRecord, readings: seq<Reading>, uptime: int) {
    && SUMMARY <= r.value.Keys
    && r.value[AvgCpuPct] == AvgCpu(readings) && IsCpuPeak(r.value[PeakCpuPct], readings)
    && (exists rss: nat :: IsRssPeak(rss, readings) && r.value[PeakRssMb] == (rss / MEGABYTE) as real)
    && (exists vram: nat :: IsVramPeak(vram, readings) && r.value[PeakVramMb] == (vram / MEGABYTE) as real)
    && r.value[UptimeSecs] == uptime as real
  }

  /** A run that the program can have recorded. */
  ghost predicate Recorded(r: RunRecord) {
    exists readings, uptime: int :: CpuReadings(readings) < 0x1_0000_0000 && Summarises(r, readings, uptime)
  }

  /** What a recorded run always satisfies. */
  lemma RecordedIsStorable(r: RunRecord)
    requires Recorded(r)
    ensures Storable(r) && AvgCpuPct in r.value && PeakCpuPct in r.value
    ensures 0.0 <= r.value[AvgCpuPct] <= r.value[PeakCpuPct]
    ensures r.value[AvgCpuPct] == 0.0 <==> r.value[PeakCpuPct] == 0.0
  {
    var readings, uptime: int :| CpuReadings(readings) < 0x1_0000_0000 && Summarises(r, readings, uptime);
    AverageWithinPeak(readings, r.value[PeakCpuPct]);
    AverageZeroIffPeakZero(readings, r.value[PeakCpuPct]);
  }

  /** Three runs of a minute, each of which peaks on a metric of its own, and which agree on the others. */
  function OwnPeak(i: nat): RunRecord {
    RunRecord(i, i, map[AvgCpuPct := 1.0,
                        PeakCpuPct := if i == 0 then 2.0 else 1.0,
                        PeakRssMb := if i == 1 then 2.0 else 1.0,
                        PeakVramMb := if i == 2 then 2.0 else 1.0,
                        UptimeSecs := 60.0])
  }

  const PEAKS: seq<RunRecord> := [OwnPeak(0), OwnPeak(1), OwnPeak(2)]

  /** Two ticks that such a run sums up: the first with its peaks. */
  function OwnReadings(i: nat): seq<Reading> {
    [Reading(Some(if i == 0 then 2.0 else 1.0), (if i == 1 then 2 else 1) * MEGABYTE,
             Some((if i == 2 then 2 else 1) * MEGABYTE)),
     Reading(Some(if i == 0 then 0.0 else 1.0), 0, None)]
  }

  lemma PeakIsRecorded(i: nat)
    ensures Recorded(OwnPeak(i))
  {
    var readings, first := OwnReadings(i), OwnReadings(i)[0];
    Grown([], readings[0]);
    Grown([readings[0]], readings[1]);
    assert [] + [readings[0]] == [readings[0]] && [readings[0]] + [readings[1]] == readings;
    assert CpuSum([]) == 0.0 && CpuReadings([]) == 0;
    assert first in readings;
    assert IsCpuPeak(OwnPeak(i).value[PeakCpuPct], readings);
    assert IsRssPeak(first.rss, readings) && IsVramPeak(first.vram.value, readings);
    assert Summarises(OwnPeak(i), readings, 60);
  }

  lemma ThreeValues(x: real, y: real, z: real, c: real)
    ensures Sum([x, y, z]) == x + y + z
    ensures SquaresAround([x, y, z], c) == (x - c) * (x - c) + (y - c) * (y - c) + (z - c) * (z - c)
  {
    assert [x, y, z][..2] == [x, y] && [x, y][..1] == [x] && [x][..0] == [];
    assert Sum([]) == 0.0 && Sum([x]) == x && Sum([x, y]) == x + y;
    SumsStep([x], c);
    SumsStep([x, y], c);
    SumsStep([x, y, z], c);
    assert SquaresAround([], c) == 0.0;
  }

  lemma OneInThree(values: seq<real>)
    requires multiset(values) == multiset{1.0, 1.0, 2.0}
    ensures MedianOfSorted(Sort(values)) == 1.0 && Variance(Sort(values)) == 2.0 / 9.0
    ensures |Sort(values)| == 3
  {
    hide Sum, SquaresAround, Sort;
    var sorted := [1.0, 1.0, 2.0];
    SortedUnique(Sort(values), sorted);
    ThreeValues(1.0, 1.0, 2.0, 4.0 / 3.0);
    assert MeanOf(sorted) == 4.0 / 3.0;
  }

  lemma ValuesOfThree(a: RunRecord, b: RunRecord, c: RunRecord, m: Metric)
    requires m in a.value && m in b.value && m in c.value
    ensures Values([a, b, c], m) == [a.value[m], b.value[m], c.value[m]]
  {
    assert [a, b, c][..2] == [a, b] && [a, b][..1] == [a] && [a][..0] == [];
    assert Values([], m) == [];
    assert Values([a], m) == [a.value[m]];
    assert Values([a, b], m) == [a.value[m], b.value[m]];
  }

  lemma OwnPeakAt(i: nat, k: nat)
    requires i < 3 && k < 3
    ensures METRICS[k + 1] in OwnPeak(i).value && OwnPeak(i).value[METRICS[k + 1]] == if i == k then 2.0 else 1.0
  {
    assert METRICS[1] == PeakCpuPct && METRICS[2] == PeakRssMb && METRICS[3] == PeakVramMb;
  }

  lemma OnePeak(a: RunRecord, b: RunRecord, c: RunRecord, m: Metric, i: nat)
    requires i < 3 && m in a.value && m in b.value && m in c.value
    requires a.value[m] == (if i == 0 then 2.0 else 1.0) && b.value[m] == (if i == 1 then 2.0 else 1.0)
    requires c.value[m] == if i == 2 then 2.0 else 1.0
    ensures multiset(Values([a, b, c], m)) == multiset{1.0, 1.0, 2.0}
  {
    hide Values;
    ValuesOfThree(a, b, c, m);
  }

  lemma PeakValues(i: nat)
    requires i < 3
    ensures multiset(Values(PEAKS, METRICS[i + 1])) == multiset{1.0, 1.0, 2.0}
    ensures METRICS[i + 1] in PEAKS[i].value && PEAKS[i].value[METRICS[i + 1]] == 2.0
  {
    OwnPeakAt(0, i);
    OwnPeakAt(1, i);
    OwnPeakAt(2, i);
    hide Values, OwnPeak, METRICS;
    OnePeak(OwnPeak(0), OwnPeak(1), OwnPeak(2), METRICS[i + 1], i);
  }

  lemma PeakHasRule(i: nat)
    requires i < 3
    ensures Rule(PEAKS, METRICS[i + 1]) == Some(Bound(1.0, 2.0 / 9.0))
  {
    hide Values, Sort, Variance, MedianOfSorted;
    PeakValues(i);
    OneInThree(Values(PEAKS, METRICS[i + 1]));
    hide OwnPeak;
  }

  lemma PeakIsFlagged(i: nat)
    requires i < 3
    ensures Flagged(PEAKS, PEAKS[i])
  {
    PeakValues(i);
    PeakHasRule(i);
    hide OwnPeak, Values, Rule;
    assert IsFar(2.0, 1.0, 2.0 / 9.0);
    hide IsFar;
    var m := METRICS[i + 1];
    assert FlaggedBy(Rule(PEAKS, m), PEAKS[i], m);
  }

  lemma KeptNone(a: RunRecord, b: RunRecord, c: RunRecord, drop: set<nat>)
    requires {a.runId, b.runId, c.runId} <= drop
    ensures Kept([a, b, c], drop) == []
  {
    assert [a, b, c][..2] == [a, b] && [a, b][..1] == [a] && [a][..0] == [];
    assert Kept([], drop) == [] && Kept([a], drop) == [] && Kept([a, b], drop) == [];
  }

  lemma PeaksAreOutliers()
    ensures Outliers(PEAKS) == [0, 1, 2]
  {
    hide Flagged;
    PeakIsFlagged(0);
    PeakIsFlagged(1);
    PeakIsFlagged(2);
    assert forall r :: r in PEAKS <==> r == PEAKS[0] || r == PEAKS[1] || r == PEAKS[2];
    assert PEAKS[0].runId == 0 && PEAKS[1].runId == 1 && PEAKS[2].runId == 2;
    var flagged := set r <- PEAKS | Flagged(PEAKS, r) :: r.runId;
    assert flagged == {0, 1, 2};
    AscendingUnique(Ascending(flagged), [0, 1, 2]);
  }

  /** The metrics on which the rule applies at all: two samples, and some spread. */
  function Spread(records: seq<RunRecord>): set<Metric> {
    set m <- METRICS | Rule(records, m).Some?
  }

  ghost predicate DistinctIds(records: seq<RunRecord>) {
    forall i, j :: 0 <= i < j < |records| ==> records[i].runId != records[j].runId
  }

  function Ids(records: seq<RunRecord>): (ids: set<nat>)
    ensures forall r <- records :: r.runId in ids
    ensures forall id <- ids :: exists r <- records :: r.runId == id
  {
    set r <- records :: r.runId
  }

  lemma {:induction false} IdsCounted(records: seq<RunRecord>)
    requires DistinctIds(records)
    ensures |Ids(records)| == |records|
  {
    if records != [] {
      var n := |records| - 1;
      IdsCounted(records[..n]);
      assert records == records[..n] + [records[n]];
      IdsPush(records[..n], records[n]);
      hide Ids;
      assert forall r <- records[..n] :: r.runId != records[n].runId;
      assert records[n].runId !in Ids(records[..n]);
    }
  }

  lemma IdsPush(records: seq<RunRecord>, r: RunRecord)
    ensures Ids(records + [r]) == Ids(records) + {r.runId}
  {
    assert forall q :: q in records + [r] <==> q in records || q == r;
  }

  lemma {:induction false} AtMostOneSampleEach(records: seq<RunRecord>, m: Metric)
    ensures |Values(records, m)| <= |records|
  {
    if records != [] {
      AtMostOneSampleEach(records[..|records| - 1], m);
    }
  }

  /** Twice the runs flagged on one metric are fewer than all runs. */
  lemma FlaggedUnderHalf(records: seq<RunRecord>, m: Metric)
    requires records != []
    ensures 2 * |FlaggedIn(records, Rule(records, m), m)| < |records|
  {
    hide FlaggedIn, Sort, Variance, MedianOfSorted;
    AtMostOneSampleEach(records, m);
    if Values(records, m) == [] {
      assert Rule(records, m) == None;
      NoRuleNobody(records, m);
    } else {
      OutliersAreMinority(records, m);
    }
  }

  lemma NoRuleNobody(records: seq<RunRecord>, m: Metric)
    ensures FlaggedIn(records, None, m) == {}
  {
  }

  /** Everybody who is flagged is flagged on `a` or on `b`, when these are the only metrics with spread. */
  lemma FlaggedOnTwo(records: seq<RunRecord>, a: Metric, b: Metric)
    requires Spread(records) <= {a, b}
    ensures forall r <- records :: Flagged(records, r) ==>
              r.runId in FlaggedIn(records, Rule(records, a), a) + FlaggedIn(records, Rule(records, b), b)
  {
    hide Rule;
    forall r <- records | Flagged(records, r)
      ensures r.runId in FlaggedIn(records, Rule(records, a), a) + FlaggedIn(records, Rule(records, b), b)
    {
      var m :| m in METRICS && FlaggedBy(Rule(records, m), r, m);
      assert m in Spread(records);
    }
  }

  lemma AtMostTwo(s: set<Metric>) returns (a: Metric, b: Metric)
    requires |s| <= 2
    ensures s <= {a, b}
  {
    a, b := AvgCpuPct, AvgCpuPct;
    if s != {} {
      a :| a in s;
      b := a;
      if s - {a} != {} {
        b :| b in s - {a};
        assert |s - {a, b}| == |s| - 2;
      }
    }
  }

  /** When dropping outliers cannot empty the baseline: distinct runs with spread on at most two metrics. Some
      run then is no outlier, and every metric that all stored runs have keeps a sample. */
  lemma TwoSpreadsLeaveARun(records: seq<RunRecord>, strategy: Strategy)
    requires records != [] && DistinctIds(records) && |Spread(records)| <= 2
    ensures exists r <- records :: !Flagged(records, r) && r.runId !in Outliers(records)
    ensures (forall r <- records :: Storable(r)) ==>
              forall m <- MANDATORY :: FromRecordsWith(records, strategy, true).0[m].Some?
  {
    hide Rule, Flagged, FlaggedIn, Ascending, Spread, Stat, Values, Kept;
    var a, b := AtMostTwo(Spread(records));
    var fa, fb := FlaggedIn(records, Rule(records, a), a), FlaggedIn(records, Rule(records, b), b);
    FlaggedUnderHalf(records, a);
    FlaggedUnderHalf(records, b);
    IdsCounted(records);
    FlaggedOnTwo(records, a, b);
    var id := Spared(Ids(records), fa, fb);
    var r :| r in records && r.runId == id;
    assert forall q <- records :: Flagged(records, q) ==> q.runId != id;
    assert !Flagged(records, r) && id !in Outliers(records);
    SparedIsKept(records, r, IdSet(Outliers(records)));
    forall m | m in MANDATORY && (forall q <- records :: Storable(q))
      ensures FromRecordsWith(records, strategy, true).0[m].Some?
    {
      assert Storable(r);
      SampleRemains(records, r, m);
      SampleRemains(Kept(records, IdSet(Outliers(records))), r, m);
      MandatoryIsMetric(m);
      StatOfSome(Values(records, m), strategy);
      StatOfSome(Values(Kept(records, IdSet(Outliers(records))), m), strategy);
    }
  }

  lemma MandatoryIsMetric(m: Metric)
    requires m in MANDATORY
    ensures m in METRICS
  {
    assert METRICS[2] == PeakRssMb && METRICS[3] == PeakVramMb && METRICS[4] == UptimeSecs;
  }

  lemma StatOfSome(values: seq<real>, strategy: Strategy)
    ensures values != [] ==> Stat(values, strategy).Some?
  {
  }

  lemma {:induction false} SparedIsKept(records: seq<RunRecord>, r: RunRecord, drop: set<nat>)
    requires r in records && r.runId !in drop
    ensures r in Kept(records, drop)
  {
    var n := |records| - 1;
    if records[n] != r {
      assert records == records[..n] + [records[n]];
      SparedIsKept(records[..n], r, drop);
    }
  }

  lemma {:induction false} SampleRemains(records: seq<RunRecord>, r: RunRecord, m: Metric)
    ensures r in records && m in r.value ==> Values(records, m) != []
  {
    if r in records {
      var n := |records| - 1;
      if records[n] != r {
        assert records == records[..n] + [records[n]];
        SampleRemains(records[..n], r, m);
      }
    }
  }

  lemma Spared(ids: set<nat>, a: set<nat>, b: set<nat>) returns (id: nat)
    requires 2 * |a| < |ids| && 2 * |b| < |ids|
    ensures id in ids && id !in a + b
  {
    SubsetSize(ids, a + b);
    assert a + b == a + (b - a);
    SubsetSize(b - a, b);
    assert !(ids <= a + b);
    id :| id in ids && id !in a + b;
  }

  lemma SubsetSize(a: set<nat>, b: set<nat>)
    ensures a <= b ==> |a| <= |b|
  {
    if a <= b {
      assert b == a + (b - a);
    }
  }

  lemma NoSpread(values: seq<real>, c: real)
    requires values == [] || values == [c, c, c]
    ensures |Sort(values)| < 2 || Variance(Sort(values)) == 0.0
  {
    hide Sum, SquaresAround, Sort, MedianOfSorted;
    if values != [] {
      SortedUnique(Sort(values), values);
      ThreeValues(c, c, c, c);
      assert MeanOf(values) == c;
    }
  }

  lemma FlatMetric(m: Metric)
    requires m !in {PeakCpuPct, PeakRssMb, PeakVramMb}
    ensures Rule(PEAKS, m) == None
  {
    var c := FlatValues(m);
    hide OwnPeak, Values, Sort, Variance;
    NoSpread(Values(PEAKS, m), c);
  }

  lemma FlatValues(m: Metric) returns (c: real)
    requires m !in {PeakCpuPct, PeakRssMb, PeakVramMb}
    ensures Values(PEAKS, m) == [] || Values(PEAKS, m) == [c, c, c]
  {
    hide Values;
    c := if m == AvgCpuPct then 1.0 else 60.0;
    if m == AvgCpuPct || m == UptimeSecs {
      ValuesOfThree(OwnPeak(0), OwnPeak(1), OwnPeak(2), m);
    } else {
      NoneOfThree(OwnPeak(0), OwnPeak(1), OwnPeak(2), m);
    }
  }

  lemma NoneOfThree(a: RunRecord, b: RunRecord, c: RunRecord, m: Metric)
    requires m !in a.value && m !in b.value && m !in c.value
    ensures Values([a, b, c], m) == []
  {
    assert [a, b, c][..2] == [a, b] && [a, b][..1] == [a] && [a][..0] == [];
    assert Values([], m) == [] && Values([a], m) == [] && Values([a, b], m) == [];
  }

  lemma PeaksSpread()
    ensures Spread(PEAKS) == {PeakCpuPct, PeakRssMb, PeakVramMb}
  {
    hide Rule, OwnPeak;
    forall m | m !in {PeakCpuPct, PeakRssMb, PeakVramMb}
      ensures Rule(PEAKS, m) == None
    {
      FlatMetric(m);
    }
    PeakHasRule(0);
    PeakHasRule(1);
    PeakHasRule(2);
    assert METRICS[1] == PeakCpuPct && METRICS[2] == PeakRssMb && METRICS[3] == PeakVramMb;
    assert forall m :: m in {PeakCpuPct, PeakRssMb, PeakVramMb} ==> m in METRICS && Rule(PEAKS, m).Some?;
  }

  /** Two is sharp: with spread on three metrics, three recorded runs, the smallest history that counts as a
      baseline under the default settings, can all be dropped. The rollup is then empty on every metric,
      although the history was long enough. */
  lemma DroppingCanEmptyTheBaseline(strategy: Strategy)
    ensures DistinctIds(PEAKS) && forall r <- PEAKS :: Recorded(r)
    ensures |Spread(PEAKS)| == 3
    ensures Outliers(PEAKS) == [0, 1, 2]
    ensures forall m <- METRICS :: FromRecordsWith(PEAKS, strategy, true).0[m] == None
  {
    hide Outliers, Kept, Spread;
    PeaksSpread();
    PeaksAreOutliers();
    KeptNone(OwnPeak(0), OwnPeak(1), OwnPeak(2), IdSet(Outliers(PEAKS)));
    PeaksAreRecorded();
    hide OwnPeak, Recorded, DistinctIds;
    forall m: Metric
      ensures Stat(Values([], m), strategy) == None
    {
    }
  }

  lemma PeaksAreRecorded()
    ensures DistinctIds(PEAKS) && forall r <- PEAKS :: Recorded(r)
  {
    hide Recorded;
    PeakIsRecorded(0);
    PeakIsRecorded(1);
    PeakIsRecorded(2);
    assert forall r :: r in PEAKS <==> r == OwnPeak(0) || r == OwnPeak(1) || r == OwnPeak(2);
  }
}
