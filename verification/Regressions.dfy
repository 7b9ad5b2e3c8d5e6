/** Regression detection for a finished run (src/analysis/compare.rs, `check_regressions` in
    src/runtime.rs), and the bounded queue, counters and archive that its findings go through. */
module Regressions {
  import opened Options
  import opened Baseline
  import opened RunStores
  import opened Rings

  datatype Severity = Info | Warn | Critical

  datatype Regression = Regression(metric: Metric, baseline: real, current: real, deltaPct: real, severity: Severity)

  datatype RegressionEvent = RegressionEvent(timestamp: int, model: string, baselineSize: nat, regression: Regression)

  datatype DetectorConfig = DetectorConfig(
    warnPct: real,
    criticalPct: real,
    baselineWindow: nat,
    minBaselineSamples: nat,
    strategy: Strategy,
    dropOutliers: bool)

  /** A metric and whether lower is better. */
  const PROBES: seq<(Metric, bool)> :=
    [(AvgCpuPct, true), (PeakCpuPct, true), (PeakRssMb, true), (PeakVramMb, true),
     (TokensPerSecAvg, false), (FpsAvg, false), (GpuWattsAvg, true)]

  function Abs(x: real): real {
    if x < 0.0 then -x else x
  }

  function DeltaPct(cur: real, base: real, lowerIsBetter: bool): real
    requires base != 0.0
  {
    var raw := (cur - base) / base * 100.0;
    if lowerIsBetter then raw else -raw
  }

  /** What one probe reports. */
  function Probe(centre: Option<real>, current: Option<real>, m: Metric, lowerIsBetter: bool, cfg: DetectorConfig)
    : Option<Regression>
  {
    if centre.None? || current.None? || Abs(centre.value) < EPSILON then None
    else
      var delta := DeltaPct(current.value, centre.value, lowerIsBetter);
      if delta < cfg.warnPct then None
      else Some(Regression(m, centre.value, current.value, delta, if delta >= cfg.criticalPct then Critical else Warn))
  }

  function Centre(metrics: map<Metric, Option<MeanVar>>, m: Metric): Option<real> {
    if m in metrics && metrics[m].Some? then Some(metrics[m].value.centre) else None
  }

  function Current(record: RunRecord, m: Metric): Option<real> {
    if m in record.value then Some(record.value[m]) else None
  }

  function ProbeAt(record: RunRecord, metrics: map<Metric, Option<MeanVar>>, cfg: DetectorConfig, i: nat): Option<Regression>
    requires i < |PROBES|
  {
    Probe(Centre(metrics, PROBES[i].0), Current(record, PROBES[i].0), PROBES[i].0, PROBES[i].1, cfg)
  }

  /** The findings of the first `k` probes, in order. */
  function Findings(record: RunRecord, metrics: map<Metric, Option<MeanVar>>, cfg: DetectorConfig, k: nat): seq<Regression>
    requires k <= |PROBES|
  {
    if k == 0 then []
    else
      var found := ProbeAt(record, metrics, cfg, k - 1);
      Findings(record, metrics, cfg, k - 1) + if found.Some? then [found.value] else []
  }

  function Detect(record: RunRecord, size: nat, metrics: map<Metric, Option<MeanVar>>, cfg: DetectorConfig): seq<Regression> {
    if size < cfg.minBaselineSamples then [] else Findings(record, metrics, cfg, |PROBES|)
  }

  method DetectRegressionsWith(record: RunRecord, size: nat, metrics: map<Metric, Option<MeanVar>>, cfg: DetectorConfig)
    returns (found: seq<Regression>)
    ensures found == Detect(record, size, metrics, cfg)
    ensures forall r <- found :: !r.severity.Info?
  {
    found := [];
    if size < cfg.minBaselineSamples {
      return;
    }
    for i := 0 to |PROBES|
      invariant found == Findings(record, metrics, cfg, i)
      invariant forall r <- found :: !r.severity.Info?
    {
      var (m, lowerIsBetter) := PROBES[i];
      var centre, current := Centre(metrics, m), Current(record, m);
      if centre.None? || current.None? {
        continue;
      }
      if Abs(centre.value) < EPSILON {
        continue;
      }
      var raw := (current.value - centre.value) / centre.value * 100.0;
      var delta := if lowerIsBetter then raw else -raw;
      if delta < cfg.warnPct {
        continue;
      }
      var severity := if delta >= cfg.criticalPct then Critical else Warn;
      found := found + [Regression(m, centre.value, current.value, delta, severity)];
    }
  }

  /** The newest runs of the store, without the first of them when that is the run just stored. */
  function Prior(runs: seq<RunRecord>, record: RunRecord, window: nat): seq<RunRecord> {
    ButItself(Recent(runs, window + 1), record)
  }

  function ButItself(recent: seq<RunRecord>, record: RunRecord): seq<RunRecord> {
    if recent != [] && recent[0].runId == record.runId then recent[1..] else recent
  }

  function Stamped(found: seq<Regression>, clock: nat -> int, model: string, size: nat): (r: seq<RegressionEvent>)
    ensures |r| == |found|
  {
    seq(|found|, i requires 0 <= i < |found| => RegressionEvent(clock(i), model, size, found[i]))
  }

  /** The events one finished run gives rise to. `clock` is the reading for each of them. */
  function NewEvents(runs: seq<RunRecord>, record: RunRecord, model: string, cfg: DetectorConfig, clock: nat -> int)
    : seq<RegressionEvent>
  {
    var prior := Prior(runs, record, cfg.baselineWindow);
    if Recent(runs, cfg.baselineWindow + 1) == [] || |prior| < cfg.minBaselineSamples then []
    else
      var metrics := FromRecordsWith(prior, cfg.strategy, cfg.dropOutliers).0;
      Stamped(Detect(record, |prior|, metrics, cfg), clock, model, |prior|)
  }

  // ---------------------------------------------------------------- queue, counters, archive

  type Counts = map<(string, Metric), nat>

  function KeyOf(e: RegressionEvent): (string, Metric) {
    (e.model, e.regression.metric)
  }

  function Bump(counts: Counts, key: (string, Metric)): Counts {
    counts[key := (if key in counts then counts[key] else 0) + 1]
  }

  function BumpAll(counts: Counts, events: seq<RegressionEvent>): Counts {
    if events == [] then counts
    else Bump(BumpAll(counts, events[..|events| - 1]), KeyOf(events[|events| - 1]))
  }

  /** `iter().skip(n)`. */
  function Skip<T>(s: seq<T>, n: nat): seq<T> {
    if |s| <= n then [] else s[n..]
  }

  /** The part of a batch that is counted and mirrored: whatever the queue holds beyond its old length. */
  function Counted<T>(ring: seq<T>, batch: seq<T>, cap: nat): seq<T> {
    Skip(PushAll(ring, batch, cap), |ring|)
  }

  lemma PushNothing<T>(ring: seq<T>, cap: nat)
    ensures PushAll(ring, [], cap) == ring
  {
  }

  class RegressionLog {
    const cap: nat
    var regressions: seq<RegressionEvent>
    var counts: Counts
    /** Every event handed to the history archive, oldest first. */
    var mirrored: seq<RegressionEvent>

    /** The queue keeps to its cap, and counters and archive agree. */
    ghost predicate Valid()
      reads this
    {
      |regressions| <= cap && counts == BumpAll(map[], mirrored)
    }

    constructor (cap: nat)
      ensures Valid() && this.cap == cap && regressions == [] && counts == map[] && mirrored == []
    {
      this.cap := cap;
      regressions, counts, mirrored := [], map[], [];
    }

    method CheckRegressions(runs: seq<RunRecord>, record: RunRecord, model: string, cfg: DetectorConfig, clock: nat -> int)
      modifies this`regressions
      ensures regressions == PushAll(old(regressions), NewEvents(runs, record, model, cfg, clock), cap)
    {
      hide FromRecordsWith, PushAll, Detect, Stamped;
      assert PushAll(regressions, [], cap) == regressions by {
        PushNothing(regressions, cap);
      }
      var prior := Recent(runs, cfg.baselineWindow + 1);
      if prior == [] {
        return;
      }
      if prior[0].runId == record.runId {
        prior := prior[1..];
      }
      assert prior == Prior(runs, record, cfg.baselineWindow);
      if |prior| < cfg.minBaselineSamples {
        return;
      }
      var metrics := FromRecordsWith(prior, cfg.strategy, cfg.dropOutliers).0;
      var found := DetectRegressionsWith(record, |prior|, metrics, cfg);
      PushFindings(found, clock, model, |prior|);
    }

    method PushFindings(found: seq<Regression>, clock: nat -> int, model: string, size: nat)
      requires forall r <- found :: !r.severity.Info?
      modifies this`regressions
      ensures regressions == PushAll(old(regressions), Stamped(found, clock, model, size), cap)
    {
      ghost var events := Stamped(found, clock, model, size);
      for i := 0 to |found|
        invariant regressions == PushAll(old(regressions), events[..i], cap)
      {
        assert events[..i + 1][..i] == events[..i];
        if found[i].severity.Info? {
          continue;
        }
        regressions := KeepNewest(regressions + [RegressionEvent(clock(i), model, size, found[i])], cap);
      }
      assert events[..|found|] == events;
    }

    /** The regression part of one exit, once its run is stored: note the length, check, then count and mirror what lies beyond it. */
    method RecordExit(runs: seq<RunRecord>, record: RunRecord, model: string, cfg: DetectorConfig, clock: nat -> int)
      requires Valid()
      modifies this
      ensures Valid()
      ensures var batch := NewEvents(runs, record, model, cfg, clock);
              && regressions == PushAll(old(regressions), batch, cap)
              && mirrored == old(mirrored) + Counted(old(regressions), batch, cap)
              && counts == BumpAll(old(counts), Counted(old(regressions), batch, cap))
    {
      hide PushAll, NewEvents;
      var regsBefore := |regressions|;
      CheckRegressions(runs, record, model, cfg, clock);
      var beyond := Skip(regressions, regsBefore);
      ghost var ring := regressions;
      for i := 0 to |beyond|
        invariant regressions == ring
        invariant mirrored == old(mirrored) + beyond[..i]
        invariant counts == BumpAll(old(counts), beyond[..i])
      {
        assert beyond[..i + 1][..i] == beyond[..i];
        counts := Bump(counts, KeyOf(beyond[i]));
        mirrored := mirrored + [beyond[i]];
      }
      assert beyond[..|beyond|] == beyond;
      BumpAllAppend(map[], old(mirrored), beyond);
      PushAllKeepsNewest(old(regressions), NewEvents(runs, record, model, cfg, clock), cap);
    }
  }

  // ---------------------------------------------------------------- what a finding means

  /** Worse than the baseline by at least `pct` percent of it. Percentages of a negative baseline
      point the other way: there the code takes an improvement for the worse. */
  predicate WorseBy(current: real, base: real, lowerIsBetter: bool, pct: real) {
    var mark := if lowerIsBetter then base + base * pct / 100.0 else base - base * pct / 100.0;
    if lowerIsBetter == (base > 0.0) then current >= mark else current <= mark
  }

  lemma DeltaMeansWorse(current: real, base: real, lowerIsBetter: bool, pct: real)
    requires base != 0.0
    ensures DeltaPct(current, base, lowerIsBetter) >= pct <==> WorseBy(current, base, lowerIsBetter, pct)
  {
    var raw := (current - base) / base * 100.0;
    Quotient(current - base, base);
    assert raw * base == (current - base) * 100.0;
    if lowerIsBetter {
      TimesBase(base, pct, raw);
    } else {
      TimesBase(base, raw, -pct);
      assert (-pct) * base == -(base * pct);
    }
  }

  lemma TimesBase(base: real, a: real, b: real)
    requires base != 0.0
    ensures a <= b <==> if base > 0.0 then a * base <= b * base else b * base <= a * base
  {
    if base > 0.0 {
      Cancel(base, a, b);
    } else {
      Cancel(-base, a, b);
      assert (-base) * a == -(a * base) && (-base) * b == -(b * base);
    }
  }

  lemma Quotient(a: real, n: real)
    requires n != 0.0
    ensures a / n * n == a
  {
  }

  lemma {:induction false} FindingsAre(record: RunRecord, metrics: map<Metric, Option<MeanVar>>, cfg: DetectorConfig, k: nat)
    requires k <= |PROBES|
    ensures forall r :: r in Findings(record, metrics, cfg, k)
              <==> exists i :: 0 <= i < k && ProbeAt(record, metrics, cfg, i) == Some(r)
  {
    hide ProbeAt;
    if k > 0 {
      FindingsAre(record, metrics, cfg, k - 1);
    }
  }

  /** What a report says, when there is one. */
  ghost predicate Reports(r: Regression, base: Option<real>, current: Option<real>, lower: bool, cfg: DetectorConfig) {
    && base == Some(r.baseline) && current == Some(r.current)
    && r.severity == (if WorseBy(r.current, r.baseline, lower, cfg.criticalPct) then Critical else Warn)
    && (cfg.warnPct > 0.0 ==> ((if lower then r.current > r.baseline else r.current < r.baseline) <==> r.baseline > 0.0))
  }

  lemma ProbeReportsIffWorse(base: Option<real>, current: Option<real>, m: Metric, lower: bool, cfg: DetectorConfig)
    ensures var r := Probe(base, current, m, lower, cfg);
            && (r.Some? <==> && base.Some? && current.Some? && Abs(base.value) >= EPSILON
                             && WorseBy(current.value, base.value, lower, cfg.warnPct))
            && (r.Some? ==> r.value.metric == m && Reports(r.value, base, current, lower, cfg))
  {
    if base.Some? && current.Some? && Abs(base.value) >= EPSILON {
      DeltaMeansWorse(current.value, base.value, lower, cfg.warnPct);
      DeltaMeansWorse(current.value, base.value, lower, cfg.criticalPct);
      WorseIsElsewhere(current.value, base.value, lower, cfg.warnPct);
      hide DeltaPct, WorseBy;
    }
  }

  lemma WorseIsElsewhere(current: real, base: real, lower: bool, pct: real)
    requires pct > 0.0 ==> base != 0.0
    ensures pct > 0.0 && WorseBy(current, base, lower, pct) ==>
              ((if lower then current > base else current < base) <==> base > 0.0)
  {
    if pct > 0.0 {
      if base > 0.0 {
        Positive(base, pct);
      } else {
        Positive(-base, pct);
        assert (-base) * pct == -(base * pct);
      }
    }
  }

  /** A metric is reported if and only if there are enough samples, both sides have a value, the baseline is
      not about zero, and the run is worse by at least the warning percentage; as critical if and only if by at least the
      critical one. With a positive baseline and warning percentage a run that is as good or better is
      never reported; with a negative baseline none that is worse. */
  lemma ReportedIffWorse(record: RunRecord, size: nat, metrics: map<Metric, Option<MeanVar>>, cfg: DetectorConfig, i: nat)
    requires i < |PROBES|
    ensures var (m, lower) := PROBES[i];
            var base, current := Centre(metrics, m), Current(record, m);
            var found := Detect(record, size, metrics, cfg);
            && ((exists r <- found :: r.metric == m)
                <==> && size >= cfg.minBaselineSamples && base.Some? && current.Some? && Abs(base.value) >= EPSILON
                     && WorseBy(current.value, base.value, lower, cfg.warnPct))
            && (forall r <- found :: r.metric == m ==> Reports(r, base, current, lower, cfg))
  {
    hide Findings, Reports, WorseBy, Abs;
    FindingsAre(record, metrics, cfg, |PROBES|);
    ProbesDistinct(record, metrics, cfg);
    ProbeReportsIffWorse(Centre(metrics, PROBES[i].0), Current(record, PROBES[i].0), PROBES[i].0, PROBES[i].1, cfg);
    assert ProbeAt(record, metrics, cfg, i)
        == Probe(Centre(metrics, PROBES[i].0), Current(record, PROBES[i].0), PROBES[i].0, PROBES[i].1, cfg);
    hide Probe, ProbeAt, Centre, Current;
    var found := Detect(record, size, metrics, cfg);
    forall r | r in found && r.metric == PROBES[i].0
      ensures ProbeAt(record, metrics, cfg, i) == Some(r)
    {
      var j :| 0 <= j < |PROBES| && ProbeAt(record, metrics, cfg, j) == Some(r);
    }
    if size >= cfg.minBaselineSamples && ProbeAt(record, metrics, cfg, i).Some? {
      assert ProbeAt(record, metrics, cfg, i).value in found;
    }
  }

  lemma ProbesDistinct(record: RunRecord, metrics: map<Metric, Option<MeanVar>>, cfg: DetectorConfig)
    ensures forall i, j :: 0 <= i < |PROBES| && 0 <= j < |PROBES| && PROBES[i].0 == PROBES[j].0 ==> i == j
    ensures forall i :: 0 <= i < |PROBES| && ProbeAt(record, metrics, cfg, i).Some?
              ==> ProbeAt(record, metrics, cfg, i).value.metric == PROBES[i].0
  {
  }

  // ---------------------------------------------------------------- by metric, without the table of probes

  /** At least `pct` percent above the baseline; below it when the baseline is negative. */
  predicate HigherBy(current: real, base: real, pct: real) {
    if base > 0.0 then current * 100.0 >= base * (100.0 + pct) else current * 100.0 <= base * (100.0 + pct)
  }

  /** At least `pct` percent below the baseline; above it when the baseline is negative. */
  predicate LowerBy(current: real, base: real, pct: real) {
    if base > 0.0 then current * 100.0 <= base * (100.0 - pct) else current * 100.0 >= base * (100.0 - pct)
  }

  lemma WorseMeans(current: real, base: real, pct: real)
    ensures WorseBy(current, base, true, pct) <==> HigherBy(current, base, pct)
    ensures base != 0.0 ==> (WorseBy(current, base, false, pct) <==> LowerBy(current, base, pct))
  {
    var part := base * pct / 100.0;
    assert part * 100.0 == base * pct;
    assert base * (100.0 + pct) == (base + part) * 100.0;
    assert base * (100.0 - pct) == (base - part) * 100.0;
  }

  /** The place of a metric in a report. */
  function Rank(m: Metric): nat {
    match m
    case AvgCpuPct => 0
    case PeakCpuPct => 1
    case PeakRssMb => 2
    case PeakVramMb => 3
    case TokensPerSecAvg => 4
    case FpsAvg => 5
    case GpuWattsAvg => 6
    case UptimeSecs => 7
  }

  lemma ProbeOf(m: Metric)
    ensures if m.UptimeSecs? then forall i :: 0 <= i < |PROBES| ==> PROBES[i].0 != m
            else Rank(m) < |PROBES| && PROBES[Rank(m)] == (m, !m.TokensPerSecAvg? && !m.FpsAvg?)
    ensures forall i :: 0 <= i < |PROBES| ==> Rank(PROBES[i].0) == i
  {
  }

  /** In report order, and below place `k`. */
  predicate Ranked(found: seq<Regression>, k: nat) {
    && (forall i :: 0 <= i < |found| ==> Rank(found[i].metric) < k)
    && (forall i, j :: 0 <= i < j < |found| ==> Rank(found[i].metric) < Rank(found[j].metric))
  }

  lemma RankedPush(found: seq<Regression>, r: Regression, k: nat)
    requires Ranked(found, k) && Rank(r.metric) == k
    ensures Ranked(found + [r], k + 1) && Ranked(found, k + 1)
  {
    hide Rank;
  }

  lemma {:induction false} FindingsRanked(record: RunRecord, metrics: map<Metric, Option<MeanVar>>, cfg: DetectorConfig, k: nat)
    requires k <= |PROBES|
    ensures Ranked(Findings(record, metrics, cfg, k), k)
  {
    if k > 0 {
      var before, found := Findings(record, metrics, cfg, k - 1), ProbeAt(record, metrics, cfg, k - 1);
      FindingsRanked(record, metrics, cfg, k - 1);
      ProbeOf(PROBES[k - 1].0);
      if found.Some? {
        RankedPush(before, found.value, k - 1);
      } else {
        assert before + [] == before;
      }
    }
  }

  /** What is asked of a baseline and a run before they are compared on a metric. */
  predicate Comparable(size: nat, cfg: DetectorConfig, base: Option<real>, current: Option<real>) {
    size >= cfg.minBaselineSamples && base.Some? && current.Some? && (base.value >= EPSILON || base.value <= -EPSILON)
  }

  /** How a finding on one of the metrics where `higher` is worse, or lower is, describes it. */
  predicate FindingSays(r: Regression, base: real, current: real, higherIsWorse: bool, cfg: DetectorConfig) {
    && r.baseline == base && r.current == current && !r.severity.Info?
    && r.deltaPct * base == (if higherIsWorse then current - base else base - current) * 100.0
    && (r.severity.Critical? <==>
          if higherIsWorse then HigherBy(current, base, cfg.criticalPct) else LowerBy(current, base, cfg.criticalPct))
  }

  /** Exactly when a metric is reported. CPU, memory and power count as worse when higher, throughput when lower, and
      the uptime is never reported; each finding says by how much and how badly; and a report has at most one
      finding for a metric, in a fixed order. */
  lemma FoundIff(record: RunRecord, size: nat, metrics: map<Metric, Option<MeanVar>>, cfg: DetectorConfig, m: Metric)
    ensures var found := Detect(record, size, metrics, cfg);
            var base := if m in metrics && metrics[m].Some? then Some(metrics[m].value.centre) else None;
            var current := if m in record.value then Some(record.value[m]) else None;
            var reported := exists r <- found :: r.metric == m;
            && (m in {AvgCpuPct, PeakCpuPct, PeakRssMb, PeakVramMb, GpuWattsAvg} ==>
                  && (reported <==> Comparable(size, cfg, base, current) && HigherBy(current.value, base.value, cfg.warnPct))
                  && (forall r <- found :: r.metric == m ==> FindingSays(r, base.value, current.value, true, cfg)))
            && (m in {TokensPerSecAvg, FpsAvg} ==>
                  && (reported <==> Comparable(size, cfg, base, current) && LowerBy(current.value, base.value, cfg.warnPct))
                  && (forall r <- found :: r.metric == m ==> FindingSays(r, base.value, current.value, false, cfg)))
            && (m == UptimeSecs ==> !reported)
            && Ranked(found, 7)
  {
    DetectRanked(record, size, metrics, cfg);
    ProbeOf(m);
    if m.UptimeSecs? {
      NoUptime(record, size, metrics, cfg);
    } else {
      FoundAt(record, size, metrics, cfg, m, !m.TokensPerSecAvg? && !m.FpsAvg?);
    }
    hide Detect, HigherBy, LowerBy, FindingSays, Comparable, Rank, Ranked;
  }

  lemma DetectRanked(record: RunRecord, size: nat, metrics: map<Metric, Option<MeanVar>>, cfg: DetectorConfig)
    ensures Ranked(Detect(record, size, metrics, cfg), 7)
  {
    FindingsRanked(record, metrics, cfg, |PROBES|);
    hide Findings, Rank;
  }

  lemma NoUptime(record: RunRecord, size: nat, metrics: map<Metric, Option<MeanVar>>, cfg: DetectorConfig)
    ensures forall r <- Detect(record, size, metrics, cfg) :: !r.metric.UptimeSecs?
  {
    ProbeOf(UptimeSecs);
    FindingsAre(record, metrics, cfg, |PROBES|);
    ProbesDistinct(record, metrics, cfg);
    hide ProbeAt, Findings, Rank;
  }

  lemma FoundAt(record: RunRecord, size: nat, metrics: map<Metric, Option<MeanVar>>, cfg: DetectorConfig, m: Metric, lower: bool)
    requires Rank(m) < |PROBES| && PROBES[Rank(m)] == (m, lower)
    ensures var found := Detect(record, size, metrics, cfg);
            var base := if m in metrics && metrics[m].Some? then Some(metrics[m].value.centre) else None;
            var current := if m in record.value then Some(record.value[m]) else None;
            && ((exists r <- found :: r.metric == m)
                <==> && Comparable(size, cfg, base, current)
                     && if lower then HigherBy(current.value, base.value, cfg.warnPct)
                        else LowerBy(current.value, base.value, cfg.warnPct))
            && (forall r <- found :: r.metric == m ==> FindingSays(r, base.value, current.value, lower, cfg))
  {
    ReportedIffWorse(record, size, metrics, cfg, Rank(m));
    DetectedIsProbed(record, size, metrics, cfg, Rank(m));
    var base, current := Centre(metrics, m), Current(record, m);
    if base.Some? && current.Some? {
      WorseMeans(current.value, base.value, cfg.warnPct);
      WorseMeans(current.value, base.value, cfg.criticalPct);
      hide Detect, Rank, WorseBy, HigherBy, LowerBy;
    }
  }

  /** The percentage of a finding is that of its probe. */
  lemma DetectedIsProbed(record: RunRecord, size: nat, metrics: map<Metric, Option<MeanVar>>, cfg: DetectorConfig, i: nat)
    requires i < |PROBES|
    ensures forall r <- Detect(record, size, metrics, cfg) :: r.metric == PROBES[i].0 ==>
              && r.baseline != 0.0
              && r.deltaPct * r.baseline == (if PROBES[i].1 then r.current - r.baseline else r.baseline - r.current) * 100.0
              && !r.severity.Info?
  {
    FindingsAre(record, metrics, cfg, |PROBES|);
    ProbesDistinct(record, metrics, cfg);
    hide Findings, ProbeAt;
    forall r <- Detect(record, size, metrics, cfg) | r.metric == PROBES[i].0
      ensures r.baseline != 0.0 && !r.severity.Info?
      ensures r.deltaPct * r.baseline == (if PROBES[i].1 then r.current - r.baseline else r.baseline - r.current) * 100.0
    {
      var j :| 0 <= j < |PROBES| && ProbeAt(record, metrics, cfg, j) == Some(r);
      assert j == i;
      ProbedIs(record, metrics, cfg, i, r);
    }
  }

  lemma ProbedIs(record: RunRecord, metrics: map<Metric, Option<MeanVar>>, cfg: DetectorConfig, i: nat, r: Regression)
    requires i < |PROBES| && ProbeAt(record, metrics, cfg, i) == Some(r)
    ensures r.baseline != 0.0 && !r.severity.Info?
    ensures r.deltaPct * r.baseline == (if PROBES[i].1 then r.current - r.baseline else r.baseline - r.current) * 100.0
  {
    assert r.baseline != 0.0 && r.deltaPct == DeltaPct(r.current, r.baseline, PROBES[i].1);
    DeltaIs(r.current, r.baseline, PROBES[i].1);
    hide DeltaPct;
  }

  lemma DeltaIs(current: real, base: real, lower: bool)
    requires base != 0.0
    ensures DeltaPct(current, base, lower) * base == (if lower then current - base else base - current) * 100.0
  {
    Quotient(current - base, base);
    var q := (current - base) / base;
    assert q * 100.0 * base == q * base * 100.0;
  }

  /** A run just appended, so the last of the index, is left out of its own baseline if and only if all
      others were spawned before it, or more than the window's number of them were spawned when it was or later. A tie
      counts as later: the sort is stable, and the run is the last appended. A run that outlives a later
      one is thus measured against itself, and its baseline may have one run more than the window. */
  lemma OwnBaselineExcluded(runs: seq<RunRecord>, window: nat)
    requires runs != [] && DistinctIds(runs)
    ensures var others, record := runs[..|runs| - 1], runs[|runs| - 1];
            var noOlder := NotOlder(others, record.spawnTime);
            && (record !in Prior(runs, record, window) <==> noOlder == 0 || noOlder > window)
            && (|Prior(runs, record, window)| <= window <==> noOlder == 0 || |runs| <= window)
  {
    var others, record := runs[..|runs| - 1], runs[|runs| - 1];
    var sorted := StableSort(runs, NEWEST_FIRST);
    var at := NotAfter(others, NEWEST_FIRST, NEWEST_FIRST(record));
    SortDistinct(runs, NEWEST_FIRST);
    LastIsPlaced(runs, NEWEST_FIRST);
    NotOlderIs(others, record.spawnTime);
    hide StableSort, NotAfter, NotOlder, ButItself, Firsts;
    PriorOf(sorted, record, window, at);
  }

  /** How many were spawned at `t` or later. */
  function NotOlder(runs: seq<RunRecord>, t: int): nat {
    if runs == [] then 0
    else NotOlder(runs[..|runs| - 1], t) + if runs[|runs| - 1].spawnTime >= t then 1 else 0
  }

  lemma {:induction false} NotOlderIs(runs: seq<RunRecord>, t: int)
    ensures NotOlder(runs, t) == NotAfter(runs, NEWEST_FIRST, -t)
  {
    if runs != [] {
      NotOlderIs(runs[..|runs| - 1], t);
    }
  }

  lemma PriorOf(sorted: seq<RunRecord>, record: RunRecord, window: nat, at: nat)
    requires at < |sorted| && sorted[at] == record && DistinctIds(sorted)
    ensures var prior := ButItself(Firsts(sorted, window + 1), record);
            && (record !in prior <==> at == 0 || at > window)
            && (|prior| <= window <==> at == 0 || |sorted| <= window)
  {
    var recent := Firsts(sorted, window + 1);
    if 0 < at <= window {
      assert recent[at] == record;
    }
  }

  lemma {:induction false} NoCentreNoFinding(record: RunRecord, metrics: map<Metric, Option<MeanVar>>, cfg: DetectorConfig, k: nat)
    requires k <= |PROBES| && forall m <- METRICS :: m in metrics && metrics[m] == None
    ensures Findings(record, metrics, cfg, k) == []
  {
    if k > 0 {
      assert PROBES[k - 1].0 in METRICS;
      NoCentreNoFinding(record, metrics, cfg, k - 1);
    }
  }

  /** A consequence for detection: after the three runs of `PEAKS`, and with outliers dropped, no run
      is ever reported, however bad. */
  lemma EmptiedBaselineReportsNothing(record: RunRecord, cfg: DetectorConfig)
    ensures Detect(record, |PEAKS|, FromRecordsWith(PEAKS, cfg.strategy, true).0, cfg) == []
  {
    hide Outliers, Kept, Stat, OwnPeak;
    DroppingCanEmptyTheBaseline(cfg.strategy);
    NoCentreNoFinding(record, FromRecordsWith(PEAKS, cfg.strategy, true).0, cfg, |PROBES|);
  }

  /** Every event of an exit names its model, the time of its own clock reading, and the number of runs it was compared
      with, and carries one finding of the report, in order; with too few runs before, or none stored, there is none. */
  lemma EventsCarryFindings(runs: seq<RunRecord>, record: RunRecord, model: string, cfg: DetectorConfig, clock: nat -> int)
    ensures var events := NewEvents(runs, record, model, cfg, clock);
            var prior := Prior(runs, record, cfg.baselineWindow);
            var found := Detect(record, |prior|, FromRecordsWith(prior, cfg.strategy, cfg.dropOutliers).0, cfg);
            && (runs == [] || |prior| < cfg.minBaselineSamples ==> events == [])
            && (runs != [] && |prior| >= cfg.minBaselineSamples ==>
                  && |events| == |found|
                  && forall i :: 0 <= i < |events| ==>
                       && events[i].model == model && events[i].timestamp == clock(i)
                       && events[i].baselineSize == |prior| && events[i].regression == found[i])
  {
    SortDistinct(runs, NEWEST_FIRST);
    SortIsStable(runs, NEWEST_FIRST, 0);
    hide StableSort, FromRecordsWith, Detect, ButItself;
  }

  // ---------------------------------------------------------------- conservation

  /** One exit: added = counted + evicted, the counted ones are the newest, and everything added is
      counted exactly when nothing is evicted. */
  lemma {:induction false} CountedAreTheNewest<T>(ring: seq<T>, batch: seq<T>, cap: nat)
    requires |ring| <= cap
    ensures var counted := Counted(ring, batch, cap);
            var evicted := |ring| + |batch| - |PushAll(ring, batch, cap)|;
            && evicted >= 0
            && |counted| + evicted == |batch|
            && counted == Suffix(batch, |counted|)
            && (counted == batch <==> evicted == 0)
  {
    PushAllKeepsNewest(ring, batch, cap);
    var all := ring + batch;
    if |all| > cap {
      assert Counted(ring, batch, cap) == all[|all| - cap..][|ring|..] == batch[|batch| - (cap - |ring|)..];
    }
  }

  /** The queue after a run of exits, each with its batch of events. */
  function RingAfter<T>(batches: seq<seq<T>>, cap: nat): seq<T> {
    if batches == [] then [] else PushAll(RingAfter(batches[..|batches| - 1], cap), batches[|batches| - 1], cap)
  }

  /** Everything counted and mirrored over the run. */
  function CountedOver<T>(batches: seq<seq<T>>, cap: nat): seq<T> {
    if batches == [] then []
    else
      var front := batches[..|batches| - 1];
      CountedOver(front, cap) + Counted(RingAfter(front, cap), batches[|batches| - 1], cap)
  }

  function Flatten<T>(batches: seq<seq<T>>): seq<T> {
    if batches == [] then [] else Flatten(batches[..|batches| - 1]) + batches[|batches| - 1]
  }

  /** The queue always holds the newest events; what is ever counted is as many as fit in it once,
      and no more: after `cap` events the counters and the archive stand still for good. */
  lemma {:induction false} CountersStopAtCap<T>(batches: seq<seq<T>>, cap: nat)
    ensures RingAfter(batches, cap) == Suffix(Flatten(batches), cap)
    ensures |CountedOver(batches, cap)| == if |Flatten(batches)| <= cap then |Flatten(batches)| else cap
    ensures CountedOver(batches, cap) == Flatten(batches) <==> |Flatten(batches)| <= cap
  {
    if batches != [] {
      var front, last := batches[..|batches| - 1], batches[|batches| - 1];
      var ring := RingAfter(front, cap);
      CountersStopAtCap(front, cap);
      PushAllKeepsNewest(ring, last, cap);
      CountedAreTheNewest(ring, last, cap);
      SuffixTwice(Flatten(front), last, cap);
    }
  }

  lemma SuffixTwice<T>(s: seq<T>, t: seq<T>, cap: nat)
    ensures Suffix(Suffix(s, cap) + t, cap) == Suffix(s + t, cap)
  {
  }

  /** With a full queue an exit counts and mirrors nothing, however many regressions it shows. */
  lemma FullQueueCountsNothing<T>(ring: seq<T>, batch: seq<T>, cap: nat)
    requires |ring| == cap
    ensures Counted(ring, batch, cap) == []
  {
    CountedAreTheNewest(ring, batch, cap);
    PushAllKeepsNewest(ring, batch, cap);
  }

  function Occurrences(events: seq<RegressionEvent>, key: (string, Metric)): nat {
    if events == [] then 0
    else
      var last := events[|events| - 1];
      Occurrences(events[..|events| - 1], key) + if last.model == key.0 && last.regression.metric == key.1 then 1 else 0
  }

  /** The counters and the archive never disagree: each counter is the number of mirrored events
      with its model and metric. */
  lemma {:induction false} CountersMatchArchive(mirrored: seq<RegressionEvent>, key: (string, Metric))
    ensures var counts := BumpAll(map[], mirrored);
            (if key in counts then counts[key] else 0) == Occurrences(mirrored, key)
  {
    if mirrored != [] {
      CountersMatchArchive(mirrored[..|mirrored| - 1], key);
    }
  }

  lemma {:induction false} BumpAllAppend(counts: Counts, a: seq<RegressionEvent>, b: seq<RegressionEvent>)
    ensures BumpAll(BumpAll(counts, a), b) == BumpAll(counts, a + b)
  {
    if b == [] {
      assert a + b == a;
    } else {
      BumpAllAppend(counts, a, b[..|b| - 1]);
      assert (a + b)[..|a + b| - 1] == a + b[..|b| - 1];
    }
  }
}
