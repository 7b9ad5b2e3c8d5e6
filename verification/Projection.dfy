/** Who is in breach, said without the projection: by cross-multiplied bytes and megabytes, over the rows, the
    platform and the limits that the history of ticks put in place (src/governor/threshold_breach.rs). */
module Projection {
  import opened Options
  import opened Kernel
  import opened Rings
  import opened Model
  import opened Executor
  import opened Protocol
  import opened Runs

  const BYTES_PER_MB: nat := 1048576

  predicate TooMuchVram(r: Row, p: Platform, t: Thresholds) {
    && p.totalVram != 0 && r.vramBytes.Some?
    && r.vramBytes.value as real * 100.0 >= t.vramCriticalPct * p.totalVram as real
  }

  /** Megabytes against whole megabytes. */
  predicate TooMuchRam(r: Row, p: Platform, t: Thresholds) {
    var total := p.totalMemory / BYTES_PER_MB;
    total != 0 && r.rssMb as real * 100.0 >= t.ramCriticalPct * total as real
  }

  ghost predicate SomeZoneRed(p: Platform, t: Thresholds) {
    exists i :: 0 <= i < |p.zones| && p.zones[i] >= t.thermalRedC
  }

  ghost predicate RowBreaches(r: Row, p: Platform, t: Thresholds) {
    || TooMuchVram(r, p, t)
    || TooMuchRam(r, p, t)
    || (SomeZoneRed(p, t) && r.category in {Inference, Training, ModelDownload, Framework})
  }

  lemma PercentAtLeast(used: nat, total: nat, pct: real)
    requires total > 0
    ensures Percent(used, total) >= pct <==> used as real * 100.0 >= pct * total as real
  {
    var n := total as real;
    var q := used as real / n;
    assert q * n == used as real;
    var d := q * 100.0 - pct;
    assert d * n == used as real * 100.0 - pct * n;
    if d >= 0.0 {
      assert d * n >= 0.0;
    } else {
      assert d * n < 0.0;
    }
  }

  lemma RowTests(r: Row, p: Platform, t: Thresholds)
    ensures VramBreached(r, p, t) <==> TooMuchVram(r, p, t)
    ensures RamBreached(r, p, t) <==> TooMuchRam(r, p, t)
  {
    if p.totalVram > 0 && r.vramBytes.Some? {
      PercentAtLeast(r.vramBytes.value, p.totalVram, t.vramCriticalPct);
    }
    if p.totalMemory / BYTES_PER_MB > 0 {
      PercentAtLeast(r.rssMb, p.totalMemory / BYTES_PER_MB, t.ramCriticalPct);
    }
    hide Percent;
  }

  lemma HotTest(p: Platform, t: Thresholds)
    ensures HostTooHot(p, t) <==> SomeZoneRed(p, t)
  {
    if z :| z in p.zones && z >= t.thermalRedC {
      var i :| 0 <= i < |p.zones| && p.zones[i] == z;
    }
    if i :| 0 <= i < |p.zones| && p.zones[i] >= t.thermalRedC {
      assert p.zones[i] in p.zones;
    }
  }

  /** The three parts of a projection, and the set that starts and ends stretches. */
  lemma ProjectionIff(s: State, pid: Pid)
    ensures var b := Project(s);
            match s.platform
            case None => b == Breaches({}, {}, false) && BreachingPids(s) == {}
            case Some(p) =>
              && (pid in b.vram <==> exists r <- s.annotated :: r.pid == pid && TooMuchVram(r, p, s.thresholds))
              && (pid in b.ram <==> exists r <- s.annotated :: r.pid == pid && TooMuchRam(r, p, s.thresholds))
              && (b.hot <==> SomeZoneRed(p, s.thresholds))
              && (pid in BreachingPids(s) <==> exists r <- s.annotated :: r.pid == pid && RowBreaches(r, p, s.thresholds))
  {
    if s.platform.Some? {
      var p := s.platform.value;
      forall r: Row
        ensures VramBreached(r, p, s.thresholds) <==> TooMuchVram(r, p, s.thresholds)
        ensures RamBreached(r, p, s.thresholds) <==> TooMuchRam(r, p, s.thresholds)
      {
        RowTests(r, p, s.thresholds);
      }
      HotTest(p, s.thresholds);
      hide VramBreached, RamBreached, HostTooHot, TooMuchVram, TooMuchRam, SomeZoneRed;
    }
  }

  // ---------------------------------------------------------------- over a run

  /** The sample of the last completed tick. */
  function LastSample(events: seq<Event>): Option<Sample> {
    if events == [] then None
    else
      var e := events[|events| - 1];
      if e.TickEvent? && e.input.sample.Some? then e.input.sample else LastSample(events[..|events| - 1])
  }

  /** The limits posted last that some tick, failed or not, has picked up. */
  function LimitsAfter(start: Thresholds, events: seq<Event>): Thresholds {
    if events == [] then start
    else
      var e := events[|events| - 1];
      if e.TickEvent? && e.input.tunables.Some? then e.input.tunables.value.thresholds
      else LimitsAfter(start, events[..|events| - 1])
  }

  function RowsOf(sample: Option<Sample>): seq<Row> {
    if sample.Some? then sample.value.annotated else []
  }

  /** Whom a tick finds in breach: the rows and the platform of the sample before, against the limits it has just picked up. */
  ghost function Found(before: Option<Sample>, limits: Thresholds): set<Pid> {
    if before.None? then {}
    else set r <- before.value.annotated | RowBreaches(r, before.value.platform, limits) :: r.pid
  }

  /** What every completed tick found, told from the events alone. */
  ghost function Findings(start: Thresholds, events: seq<Event>): seq<TickRecord> {
    if events == [] then []
    else
      var n := |events| - 1;
      var e := events[n];
      Findings(start, events[..n])
      + if e.TickEvent? && e.input.sample.Some?
        then [TickRecord(e.input.now, Found(LastSample(events[..n]), LimitsAfter(start, events)))] else []
  }

  /** The tables are those of the last completed tick. */
  ghost predicate TablesOf(s: State, last: Option<Sample>, limits: Thresholds) {
    && s.annotated == RowsOf(last) && s.thresholds == limits
    && (if last.None? then s.platform == None && s.processes == None
        else s.platform == Some(last.value.platform) && s.processes == Some(last.value.processes))
  }

  predicate SameTables(s: State, t: State) {
    && s.annotated == t.annotated && s.platform == t.platform && s.processes == t.processes
    && s.thresholds == t.thresholds && s.ticks == t.ticks
  }

  lemma ApplyKeepsTables(cfg: Config, s: State, op: Op)
    requires !op.Judge? && !op.Advance?
    ensures SameTables(s, Apply(cfg, s, op))
  {
    hide PushBounded, Tag, KillEntry, ReasonOf, WireOf, SendSigkill, Trim;
  }

  lemma {:induction false} OpsKeepTables(cfg: Config, s: State, ops: seq<Op>)
    requires forall op <- ops :: !op.Judge? && !op.Advance?
    ensures SameTables(s, After(cfg, s, ops))
    decreases |ops|
  {
    hide Apply;
    if ops != [] {
      OpsKeepTables(cfg, s, ops[..|ops| - 1]);
      ApplyKeepsTables(cfg, After(cfg, s, ops[..|ops| - 1]), ops[|ops| - 1]);
    }
  }

  lemma {:induction false} ActuatedKeepsTables(cfg: Config, s: State, os: nat -> View, n: nat)
    requires n <= |Candidates(s.decisions)|
    ensures SameTables(s, Actuated(cfg, s, os, n))
  {
    if n > 0 {
      ActuatedKeepsTables(cfg, s, os, n - 1);
      hide PushBounded, Tag, Trim;
    }
  }

  lemma {:induction false} EscalateKeepsTables(cfg: Config, s: State, order: seq<Pid>, os: nat -> View, base: nat)
    ensures SameTables(s, Escalate(cfg, s, order, os, base))
    decreases |order|
  {
    if order != [] {
      EscalateKeepsTables(cfg, s, order[..|order| - 1], os, base);
      hide PushBounded, Tag, KillEntry, SendSigkill;
    }
  }

  lemma {:induction false} DrainedKeepsTables(cfg: Config, s: State, sample: Sample, now: Time, n: nat)
    requires n <= |sample.exits|
    ensures SameTables(s, Drained(cfg, s, sample, now, n))
  {
    if n > 0 {
      hide PushBounded, ReasonOf, WireOf;
      DrainedKeepsTables(cfg, s, sample, now, n - 1);
    }
  }

  /** Only a tick touches the tables. */
  lemma StepKeepsTables(cfg: Config, s: State, e: Event)
    requires !e.TickEvent?
    ensures SameTables(s, Step(cfg, s, e))
  {
    match e
    case PassEvent(os, order) =>
      if cfg.autoActuate {
        var n := |Candidates(s.decisions)|;
        ActuatedKeepsTables(cfg, s, os, n);
        EscalateKeepsTables(cfg, Actuated(cfg, s, os, n), order, os, n + 2);
        hide Actuated, Escalate, Candidates;
      }
    case ManualKillEvent(pid, reason, v) =>
      hide PushBounded, Tag;
    case ForceKillEvent(pid, v) =>
      hide PushBounded, Tag, KillEntry, SendSigkill;
  }

  lemma TickTables(cfg: Config, s: State, input: TickInput, last: Option<Sample>, limits: Thresholds)
    requires TablesOf(s, last, limits)
    ensures var t := Tick(cfg, s, input);
            var next := if input.tunables.Some? then input.tunables.value.thresholds else limits;
            && TablesOf(t, if input.sample.Some? then input.sample else last, next)
            && t.ticks == s.ticks + if input.sample.Some? then [TickRecord(input.now, Found(last, next))] else []
  {
    if input.sample.Some? {
      var sample := input.sample.value;
      var drained := Drained(cfg, Tune(s, input), sample, input.now, |sample.exits|);
      DrainedKeepsTables(cfg, Tune(s, input), sample, input.now, |sample.exits|);
      BreachingIsFound(drained, last);
      hide Drained, Project, BreachingPids, Found, Evaluate, Refresh;
    }
  }

  lemma BreachingIsFound(s: State, last: Option<Sample>)
    requires s.annotated == RowsOf(last) && s.platform == (if last.Some? then Some(last.value.platform) else None)
    ensures BreachingPids(s) == Found(last, s.thresholds)
  {
    forall pid
      ensures pid in BreachingPids(s) <==> pid in Found(last, s.thresholds)
    {
      ProjectionIff(s, pid);
      hide BreachingPids, Project, RowBreaches;
    }
  }

  /** In every run the tables are those of the last completed tick, the limits those picked up last, and each completed tick
      has recorded exactly the PIDs with a row in breach, by the tables and the limits it met. */
  lemma {:induction false} TicksFindBreaches(cfg: Config, init: State, events: seq<Event>)
    requires IsInitial(init)
    ensures var s := Run(cfg, init, events);
            && TablesOf(s, LastSample(events), LimitsAfter(init.thresholds, events))
            && s.ticks == Findings(init.thresholds, events)
    decreases |events|
  {
    if events != [] {
      var n := |events| - 1;
      TicksFindBreaches(cfg, init, events[..n]);
      var s := Run(cfg, init, events[..n]);
      if events[n].TickEvent? {
        TickTables(cfg, s, events[n].input, LastSample(events[..n]), LimitsAfter(init.thresholds, events[..n]));
        hide Tick, Found;
      } else {
        StepKeepsTables(cfg, s, events[n]);
        hide Step, Found;
      }
    }
  }

  /** A row that uses all of a memory, and limits of at most 100 percent. */
  lemma FullMemoryBreaches(s: State, r: Row)
    requires s.platform.Some? && r in s.annotated
    requires s.thresholds.vramCriticalPct <= 100.0 && s.thresholds.ramCriticalPct <= 100.0
    requires var p := s.platform.value;
             || (r.vramBytes.Some? && r.vramBytes.value >= p.totalVram > 0)
             || (r.rssMb >= p.totalMemory / BYTES_PER_MB > 0)
    ensures r.pid in BreachingPids(s)
  {
    var p := s.platform.value;
    if r.vramBytes.Some? && r.vramBytes.value >= p.totalVram > 0 {
      AtMostAll(r.vramBytes.value, p.totalVram, s.thresholds.vramCriticalPct);
      assert TooMuchVram(r, p, s.thresholds);
    } else {
      AtMostAll(r.rssMb, p.totalMemory / BYTES_PER_MB, s.thresholds.ramCriticalPct);
      assert TooMuchRam(r, p, s.thresholds);
    }
    assert RowBreaches(r, p, s.thresholds);
    ProjectionIff(s, r.pid);
  }

  lemma AtMostAll(used: nat, total: nat, pct: real)
    requires used >= total && pct <= 100.0
    ensures used as real * 100.0 >= pct * total as real
  {
    assert (100.0 - pct) * total as real >= 0.0;
  }
}
