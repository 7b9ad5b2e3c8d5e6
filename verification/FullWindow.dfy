/** One run of five events in which a process that every gate of the pass would let through gets no SIGTERM:
    the window was full at the tick before, because of an operator's kill, and has room again at the pass. */
module FullWindow {
  import opened Options
  import opened Kernel
  import opened Rings
  import opened Model
  import opened Executor
  import opened Protocol
  import opened Runs
  import opened RateLimit
  import opened Sustain
  import opened Firing
  import opened Scenario
  import Discipline
  import Gates

  const CONFIG := Config(Policy({}, {}, true, 5, 1, 60), true, 100, 50)
  const INIT := Initial(Thresholds(90.0, 90.0, 90.0), 10)

  /** Another process of the same kind, which uses next to nothing. */
  const OTHER: Pid := 9

  const BOTH := SAMPLE.(processes := map[PID := Lifecycle([108], Some(Inference), false),
                                         OTHER := Lifecycle([109], Some(Inference), false)])

  function BothAt(t: Time): View {
    ViewBase(t, map[PID := Instance(PID, 0, 0), OTHER := Instance(OTHER, 1, 0)], {}, {PID, OTHER}, {PID, OTHER})
  }

  function InputAt(t: Time): TickInput {
    TickInput(t, None, Some(BOTH))
  }

  const VIEWS: nat -> View := (i: nat) => BothAt(Seconds(62))
  const FIRST := TickEvent(InputAt(Seconds(0)))
  const MANUAL := ManualKillEvent(OTHER, [], BothAt(Seconds(1)))
  const UNTIL_BREACH: seq<Event> := [] + [FIRST] + [MANUAL] + [TickEvent(InputAt(Seconds(50)))]
  const UNTIL_FULL: seq<Event> := UNTIL_BREACH + [TickEvent(InputAt(Seconds(60)))]
  const PASS := PassEvent(VIEWS, [OTHER])

  /** What the first tick leaves. */
  ghost predicate Sampled0(s: State) {
    && s.exec == Exec(map[], []) && s.log == [] && s.clock == Seconds(0) && s.processes == Some(BOTH.processes)
    && s.annotated == BOTH.annotated && s.platform == Some(BOTH.platform)
    && s.thresholds == INIT.thresholds && s.sustainSecs == 10
    && s.breachSince == map[] && s.ticks == [TickRecord(Seconds(0), {})]
  }

  /** One entry, from the operator's SIGTERM one second in. */
  ghost predicate Killed(s: State) {
    && s.exec.pending.Keys == {OTHER} && s.exec.recent == [Seconds(1)]
    && s.exec.pending[OTHER].sigtermTime == Seconds(1) && s.exec.pending[OTHER].sigkillTime.None?
    && |s.log| == 1 && Counts(s.log[0]) && s.log[0].time == Seconds(1)
    && s.annotated == BOTH.annotated && s.platform == Some(BOTH.platform)
    && s.thresholds == INIT.thresholds && s.sustainSecs == 10
  }

  lemma FirstTick()
    ensures Sampled0(Tick(CONFIG, INIT, InputAt(Seconds(0))))
  {
    var s := Tune(INIT, InputAt(Seconds(0)));
    assert Drained(CONFIG, s, BOTH, Seconds(0), 0) == s;
    assert Project(s) == Breaches({}, {}, false) && BreachingPids(s) == {};
    hide Evaluate, Project, BreachingPids, Drained;
    assert Refresh(map[], {}, Seconds(0)) == map[];
    assert Trimmed(s.exec, CONFIG.policy, Seconds(0)) == s.exec;
  }

  lemma OperatorKills(s: State)
    requires Sampled0(s)
    ensures var t := ManualKill(CONFIG, s, OTHER, [], BothAt(Seconds(1))).0;
            Killed(t) && t.clock == Seconds(1) && t.breachSince == s.breachSince && t.ticks == s.ticks
  {
    hide PushBounded, Tag;
  }

  lemma LaterTick(s: State, now: Time)
    requires Killed(s) && now <= Seconds(61)
    ensures var t := Tick(CONFIG, s, InputAt(now));
            && Killed(t) && t.clock == now
            && t.breachSince == (if PID in s.breachSince then map[PID := s.breachSince[PID]] else map[PID := now])
            && t.ticks == s.ticks + [TickRecord(now, {PID})]
  {
    var u := Tune(s, InputAt(now));
    assert Drained(CONFIG, u, BOTH, now, 0) == u;
    SampleBreaches(u);
    hide Evaluate, Project, BreachingPids, Drained;
    assert Trimmed(u.exec, CONFIG.policy, now) == u.exec;
    assert Refresh(s.breachSince, {PID}, now)
        == (if PID in s.breachSince then map[PID := s.breachSince[PID]] else map[PID := now]);
  }

  lemma OneSigterm(s: State, since: Time)
    requires Killed(s)
    ensures SigtermsSince(s.log, since) == if since <= Seconds(1) then 1 else 0
  {
    assert s.log[..0] == [];
  }

  lemma UntilBreach()
    ensures LegalRun(CONFIG, INIT, UNTIL_BREACH)
    ensures var s := Run(CONFIG, INIT, UNTIL_BREACH);
            && Killed(s) && s.clock == Seconds(50) && s.breachSince == map[PID := Seconds(50)]
            && s.ticks == [TickRecord(Seconds(0), {}), TickRecord(Seconds(50), {PID})]
  {
    FirstTick();
    hide Tick, ManualKill, Sampled0, Killed;
    var s := Tick(CONFIG, INIT, InputAt(Seconds(0)));
    OperatorKills(s);
    var t := ManualKill(CONFIG, s, OTHER, [], BothAt(Seconds(1))).0;
    LaterTick(t, Seconds(50));
    Clocks(s);
    Discipline.RunSnoc(CONFIG, INIT, [], FIRST);
    Discipline.RunSnoc(CONFIG, INIT, [] + [FIRST], MANUAL);
    Discipline.RunSnoc(CONFIG, INIT, [] + [FIRST] + [MANUAL], TickEvent(InputAt(Seconds(50))));
  }

  lemma Clocks(s: State)
    ensures Sampled0(s) ==> s.clock == Seconds(0) && s.breachSince == map[] && s.ticks == [TickRecord(Seconds(0), {})]
  {
  }

  /** What the pass meets. */
  ghost predicate Full(t: State) {
    && Killed(t) && t.clock == Seconds(60)
    && t.ticks == [TickRecord(Seconds(0), {}), TickRecord(Seconds(50), {PID}), TickRecord(Seconds(60), {PID})]
  }

  lemma UntilFull()
    ensures LegalRun(CONFIG, INIT, UNTIL_FULL) && Full(Run(CONFIG, INIT, UNTIL_FULL))
  {
    UntilBreach();
    var s := Run(CONFIG, INIT, UNTIL_BREACH);
    LaterTick(s, Seconds(60));
    hide Tick, Killed, Run, LegalRun;
    Discipline.RunSnoc(CONFIG, INIT, UNTIL_BREACH, TickEvent(InputAt(Seconds(60))));
  }

  lemma NoCandidates()
    requires LegalRun(CONFIG, INIT, UNTIL_FULL) && Full(Run(CONFIG, INIT, UNTIL_FULL))
    ensures Candidates(Run(CONFIG, INIT, UNTIL_FULL).decisions) == []
  {
    var s, t := Run(CONFIG, INIT, UNTIL_BREACH), Run(CONFIG, INIT, UNTIL_FULL);
    hide Run, LegalRun, Tick, Candidates, Killed;
    RunBudgeted(CONFIG, INIT, UNTIL_FULL);
    Discipline.RunSnoc(CONFIG, INIT, UNTIL_BREACH, TickEvent(InputAt(Seconds(60))));
    Gates.StepIsTick(CONFIG, s, InputAt(Seconds(60)));
    OneSigterm(t, Seconds(0));
    Gates.FullAfterTick(CONFIG, s, InputAt(Seconds(60)));
  }

  lemma PassIsLegal(t: State)
    requires Full(t) && Candidates(t.decisions) == []
    ensures Legal(CONFIG, t, PASS)
  {
    hide Candidates;
    assert Actuated(CONFIG, t, VIEWS, 0) == t;
    assert Expired(t.exec, CONFIG.policy, Seconds(62)) == {OTHER};
    assert [OTHER][0] == OTHER;
  }

  lemma EveryGateOpens(t: State)
    requires Full(t) && Candidates(t.decisions) == []
    ensures Opens(CONFIG, t, VIEWS, PID, 0)
    ensures !HasRoom(CONFIG, t.log, Seconds(60))
  {
    hide Candidates;
    assert StretchFrom(t.ticks, PID, 1);
    assert t.ticks[1].now + t.sustainSecs * SECOND <= Seconds(62);
    assert FindRow(t.annotated, PID) == Some(BOTH.annotated[0]);
    assert Actuated(CONFIG, t, VIEWS, 0) == t;
    OneSigterm(t, Seconds(0));
    OneSigterm(t, Seconds(2));
  }

  lemma TickCondemnsIt(s: State, t: State)
    requires s.annotated == BOTH.annotated && s.platform == Some(BOTH.platform) && s.thresholds == INIT.thresholds && Killed(t)
    ensures Condemned(CONFIG, t, InputAt(Seconds(60)), Project(Tune(s, InputAt(Seconds(60)))), PID)
  {
    SampleBreaches(Tune(s, InputAt(Seconds(60))));
    hide Project, BreachingPids;
  }

  /** Alive, not pending, condemned by policy and in breach at the tick; in breach for longer than the
      sustain time, with its row there and room in the window at the pass: and still no SIGTERM to it is
      even attempted, since the tick two seconds before found the window full. */
  lemma FullTickSilencesThePass()
    ensures IsInitial(INIT) && LegalRun(CONFIG, INIT, UNTIL_FULL + [PASS])
    ensures var s, t := Run(CONFIG, INIT, UNTIL_BREACH), Run(CONFIG, INIT, UNTIL_FULL);
            && Condemned(CONFIG, t, InputAt(Seconds(60)), Project(Tune(s, InputAt(Seconds(60)))), PID)
            && Candidates(t.decisions) == [] && Opens(CONFIG, t, VIEWS, PID, 0)
            && !HasRoom(CONFIG, t.log, Seconds(60))
            && !AttemptedIn(Run(CONFIG, INIT, UNTIL_FULL + [PASS]).log, |t.log|, PID)
  {
    UntilBreach();
    UntilFull();
    NoCandidates();
    var s, t := Run(CONFIG, INIT, UNTIL_BREACH), Run(CONFIG, INIT, UNTIL_FULL);
    PassIsLegal(t);
    EveryGateOpens(t);
    TickCondemnsIt(s, t);
    hide Run, LegalRun, Legal, Candidates, Condemned, Opens, HasRoom, AttemptedIn, Killed, Pass, Project;
    Discipline.RunSnoc(CONFIG, INIT, UNTIL_FULL, PASS);
    SignalledIff(CONFIG, INIT, UNTIL_BREACH, InputAt(Seconds(60)), VIEWS, [OTHER], PID);
  }
}
