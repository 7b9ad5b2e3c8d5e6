/** One AI process that fills the only GPU, and what ticks and passes make of it under any armed
    configuration. The concrete runs of StaleRun, AllowAll, Validation and FullWindow are built from these pieces. */
module Scenario {
  import opened Options
  import opened Kernel
  import opened Rings
  import opened Model
  import opened Executor
  import opened Protocol
  import opened Runs
  import Discipline
  import Sorting

  const PID: Pid := 7

  const SAMPLE := Sample([Row(PID, [108], Inference, Some(1), 0)], Platform(1, 0, []),
                         map[PID := Lifecycle([108], Some(Inference), false)], [], [])

  /** Both opt-ins given, nobody exempt, room for three kills. */
  predicate Armed(cfg: Config) {
    && cfg.autoActuate && cfg.policy.killByDefault && cfg.policy.allow == {}
    && cfg.policy.maxKills >= 3 && cfg.policy.graceSecs >= 1
  }

  /** The process lives; no pidfd can be opened; its start tick can be read, and it may be signalled. */
  function ViewAt(t: Time): View {
    ViewBase(t, map[PID := Instance(PID, 0, 0)], {}, {PID}, {PID})
  }

  function Views(t: Time): nat -> View {
    (i: nat) => ViewAt(t)
  }

  function Seconds(n: int): Time {
    n * SECOND
  }

  function Sampled(now: Time, tunables: Option<Tunables>): Event {
    TickEvent(TickInput(now, tunables, Some(SAMPLE)))
  }

  lemma OnlyPid()
    ensures Sorting.Ascending({PID}) == [PID]
  {
    Sorting.AscendingUnique(Sorting.Ascending({PID}), [PID]);
  }

  lemma TickAssesses(cfg: Config, s: State, now: Time, tunables: Option<Tunables>)
    ensures Tick(cfg, s, TickInput(now, tunables, Some(SAMPLE)))
            == Assess(cfg, Tune(s, TickInput(now, tunables, Some(SAMPLE))), SAMPLE, now)
  {
    hide Assess;
  }

  /** The first sample finds no platform to measure against, so nobody is in breach yet. */
  lemma AssessFirst(cfg: Config, s: State, now: Time)
    requires s.annotated == [] && s.platform == None && s.breachSince == map[] && s.exec == Exec(map[], [])
    ensures var t := Assess(cfg, s, SAMPLE, now);
            && t == s.(decisions := t.decisions, annotated := SAMPLE.annotated, platform := Some(SAMPLE.platform),
                       processes := Some(SAMPLE.processes), ticks := s.ticks + [TickRecord(now, {})], clock := now)
            && t.decisions == Evaluate(s.exec, cfg.policy, SAMPLE.processes, Breaches({}, {}, false))
  {
    hide Evaluate;
    assert Refresh(map[], {}, now) == map[];
    assert Project(s) == Breaches({}, {}, false) && BreachingPids(s) == {};
    assert Trimmed(s.exec, cfg.policy, now) == s.exec;
  }

  lemma SampleBreaches(s: State)
    requires s.annotated == SAMPLE.annotated && s.platform == Some(SAMPLE.platform) && s.thresholds.vramCriticalPct <= 100.0
    ensures Project(s) == Breaches({PID}, {}, false) && BreachingPids(s) == {PID}
  {
    var row := SAMPLE.annotated[0];
    assert VramBreached(row, SAMPLE.platform, s.thresholds) by {
      assert Percent(1, 1) == 100.0;
    }
    assert SAMPLE.annotated == [row];
  }

  lemma SampleCondemned(cfg: Config)
    requires Armed(cfg)
    ensures var d := Evaluate(Exec(map[], []), cfg.policy, SAMPLE.processes, Breaches({PID}, {}, false));
            |d| == 1 && d[0].pid == PID && d[0].action.SignalTermSent?
  {
    hide MarkedReason;
    OnlyPid();
    assert SAMPLE.processes.Keys == {PID};
  }

  /** The sample read after it has already been installed once. */
  lemma AssessBreach(cfg: Config, s: State, now: Time)
    requires Armed(cfg)
    requires s.annotated == SAMPLE.annotated && s.platform == Some(SAMPLE.platform) && s.thresholds.vramCriticalPct <= 100.0
    requires s.exec == Exec(map[], []) && s.breachSince == map[]
    ensures var t := Assess(cfg, s, SAMPLE, now);
            && t == s.(decisions := t.decisions, breachSince := map[PID := now], processes := Some(SAMPLE.processes),
                       ticks := s.ticks + [TickRecord(now, {PID})], clock := now)
            && |t.decisions| == 1 && t.decisions[0].pid == PID && t.decisions[0].action.SignalTermSent?
  {
    SampleBreaches(s);
    SampleCondemned(cfg);
    hide Evaluate, Project, BreachingPids;
    assert Refresh(map[], {PID}, now) == map[PID := now];
    assert Trimmed(s.exec, cfg.policy, now) == s.exec;
  }

  /** In breach since `since`, marked, with nothing pending and nobody signalled. */
  ghost predicate Marked(s: State, since: Time, sustainSecs: nat) {
    && s.exec == Exec(map[], []) && s.log == [] && s.annotated == SAMPLE.annotated
    && s.sustainSecs == sustainSecs && s.clock == since && s.breachSince == map[PID := since]
    && |s.decisions| == 1 && s.decisions[0].pid == PID && s.decisions[0].action.SignalTermSent?
    && Candidates(s.decisions) == s.decisions
  }

  function SustainUnder(s: State, tunables: Option<Tunables>): nat {
    if tunables.Some? then tunables.value.sustainSecs else s.sustainSecs
  }

  function ThresholdsUnder(s: State, tunables: Option<Tunables>): Thresholds {
    if tunables.Some? then tunables.value.thresholds else s.thresholds
  }

  function TwoTicks(second: Time, tunables: Option<Tunables>): seq<Event> {
    [] + [Sampled(0, tunables)] + [Sampled(second, tunables)]
  }

  /** Two completed ticks mark the process, under the tunables both of them read. */
  lemma TwoTicksMark(cfg: Config, init: State, second: Time, tunables: Option<Tunables>)
    requires Armed(cfg) && IsInitial(init) && second >= 0
    requires ThresholdsUnder(init, tunables).vramCriticalPct <= 100.0
    ensures LegalRun(cfg, init, TwoTicks(second, tunables))
    ensures Marked(Run(cfg, init, TwoTicks(second, tunables)), second, SustainUnder(init, tunables))
  {
    TickAssesses(cfg, init, 0, tunables);
    AssessFirst(cfg, Tune(init, TickInput(0, tunables, Some(SAMPLE))), 0);
    var s := Tick(cfg, init, TickInput(0, tunables, Some(SAMPLE)));
    TickAssesses(cfg, s, second, tunables);
    hide Assess, Evaluate;
    AssessBreach(cfg, Tune(s, TickInput(second, tunables, Some(SAMPLE))), second);
    var t := Tick(cfg, s, TickInput(second, tunables, Some(SAMPLE)));
    OneCandidate(t.decisions);
    hide Tick;
    Discipline.RunSnoc(cfg, init, [], Sampled(0, tunables));
    Discipline.RunSnoc(cfg, init, [] + [Sampled(0, tunables)], Sampled(second, tunables));
  }

  lemma OneCandidate(decisions: seq<Decision>)
    requires |decisions| == 1 && decisions[0].action.SignalTermSent?
    ensures Candidates(decisions) == decisions
  {
    assert decisions[..0] == [];
  }

  /** A candidate that finds every gate open is pending afterwards, since this instant. */
  lemma TurnFires(cfg: Config, s: State, c: Decision, v: View)
    requires Armed(cfg) && c.pid == PID && s.annotated == SAMPLE.annotated && Sustained(s, PID, v.now)
    requires |s.exec.recent| < 3 && Trim(s.exec.recent, v.now - cfg.policy.Window()) == s.exec.recent
    requires KillByPid(v, PID).Delivered?
    ensures var u := Actuate(cfg, s, c, v.now, v);
            && u.exec.pending.Keys == s.exec.pending.Keys + {PID} && u.exec.pending[PID].sigtermTime == v.now
            && u.exec.recent == s.exec.recent + [v.now]
            && |u.log| == |s.log| + 1
  {
    hide PushBounded, Tag, Trim, Sustained;
    assert FindRow(s.annotated, PID) == Some(SAMPLE.annotated[0]);
  }

  lemma Fires(cfg: Config, s: State, t: Time)
    requires Armed(cfg)
    requires Candidates(s.decisions) == s.decisions && |s.decisions| == 1 && s.decisions[0].pid == PID
    requires s.annotated == SAMPLE.annotated && Sustained(s, PID, t)
    requires s.exec.pending.Keys <= {PID} && |s.exec.recent| < 3
    requires forall r <- s.exec.recent :: r >= t - cfg.policy.Window()
    ensures var u := Actuated(cfg, s, Views(t), 1);
            && u.exec.pending.Keys == {PID} && u.exec.pending[PID].sigtermTime == t
            && u.exec.recent == s.exec.recent + [t]
            && |u.log| == |s.log| + 1
            && Expired(u.exec, cfg.policy, t) == {}
  {
    if s.exec.recent != [] {
      assert s.exec.recent[0] in s.exec.recent;
    }
    NoTurnYet(cfg, s, t);
    Deliverable(t);
    TurnFires(cfg, s, s.decisions[0], ViewAt(t));
    hide Actuate, Sustained;
  }

  /** A pass over one candidate that escalates nothing. */
  lemma PassIsItsTurn(cfg: Config, s: State, t: Time)
    requires cfg.autoActuate && |Candidates(s.decisions)| == 1
    ensures Pass(cfg, s, Views(t), []) == Actuated(cfg, s, Views(t), 1)
    ensures SamePlan(s, Pass(cfg, s, Views(t), []))
    ensures s.clock <= t && Expired(Actuated(cfg, s, Views(t), 1).exec, cfg.policy, t) == {} ==>
              Legal(cfg, s, PassEvent(Views(t), []))
  {
    Discipline.PassKeepsPlan(cfg, s, Views(t), [], 0);
    hide Actuated;
  }

  lemma Deliverable(t: Time)
    ensures KillByPid(ViewAt(t), PID).Delivered?
  {
  }

  lemma NoTurnYet(cfg: Config, s: State, t: Time)
    ensures Actuated(cfg, s, Views(t), 0) == s
  {
  }
}
