/** One run of three events in which the shipped policy condemns nobody and the governor, armed, kills all
    the same: a completed tick, an operator's SIGTERM, and a pass once the grace period is over. */
module AllowAll {
  import opened Options
  import opened Kernel
  import opened Rings
  import opened Model
  import opened Executor
  import opened Protocol
  import opened Runs
  import opened Gates
  import opened Scenario
  import Discipline

  const CONFIG := Config(Policy({}, {}, false, 5, 3, 60), true, 100, 50)
  const INIT := Initial(Thresholds(95.0, 95.0, 95.0), 10)

  const MANUAL := ManualKillEvent(PID, [], ViewAt(Seconds(1)))
  const PASS := PassEvent(Views(Seconds(6)), [PID])
  const BEFORE_PASS: seq<Event> := [] + [Sampled(0, None)] + [MANUAL]
  const RUN: seq<Event> := BEFORE_PASS + [PASS]

  /** The state the pass meets: one entry, from the operator's SIGTERM one second in. */
  ghost predicate Terminated(s: State) {
    && s.exec.pending.Keys == {PID} && s.clock == Seconds(1)
    && |s.log| == 1 && s.log[0].Attempt? && s.log[0].entry.source.Manual? && s.log[0].hit == Some(Instance(PID, 0, 0))
    && var p := s.exec.pending[PID];
    && p.sigtermTime == Seconds(1) && p.sigkillTime.None? && p.pidfd.None? && p.starttime == Some(0)
  }

  lemma Terminates(s: State)
    requires s.processes == Some(SAMPLE.processes) && s.exec == Exec(map[], []) && s.log == []
    ensures Terminated(ManualKill(CONFIG, s, PID, [], ViewAt(Seconds(1))).0)
  {
    hide PushBounded, Tag;
  }

  lemma BeforePassRun()
    ensures LegalRun(CONFIG, INIT, BEFORE_PASS) && Terminated(Run(CONFIG, INIT, BEFORE_PASS))
  {
    TickAssesses(CONFIG, INIT, 0, None);
    AssessFirst(CONFIG, Tune(INIT, TickInput(0, None, Some(SAMPLE))), 0);
    hide Assess, Evaluate;
    var s := Tick(CONFIG, INIT, TickInput(0, None, Some(SAMPLE)));
    Terminates(s);
    hide Tick, ManualKill;
    Discipline.RunSnoc(CONFIG, INIT, [], Sampled(0, None));
    Discipline.RunSnoc(CONFIG, INIT, [] + [Sampled(0, None)], MANUAL);
  }

  lemma PassIsLegal(s: State)
    requires Terminated(s) && Candidates(s.decisions) == []
    ensures Legal(CONFIG, s, PASS) && FindsReachable(CONFIG, s, PASS)
  {
    hide Candidates;
    assert Actuated(CONFIG, s, Views(Seconds(6)), 0) == s;
    assert Expired(s.exec, CONFIG.policy, Seconds(6)) == {PID};
    assert [PID][0] == PID;
    assert Reachable(s.exec.pending[PID], PID, ViewAt(Seconds(6)));
  }

  /** The two opt-ins are not both needed: nobody is condemned, and the governor sends a SIGKILL. */
  lemma ManualSigtermIsEscalated()
    ensures IsInitial(INIT) && LegalRun(CONFIG, INIT, RUN) && CondemnsNobody(CONFIG.policy)
    ensures HasAutomatedKill(Run(CONFIG, INIT, RUN).log)
  {
    BeforePassRun();
    NobodyIsCandidate(CONFIG, INIT, BEFORE_PASS);
    PassIsLegal(Run(CONFIG, INIT, BEFORE_PASS));
    hide Run, LegalRun, Legal, Step, HasAutomatedKill, FindsReachable, Terminated;
    Discipline.RunSnoc(CONFIG, INIT, BEFORE_PASS, PASS);
    PassWithoutCandidates(CONFIG, INIT, BEFORE_PASS, PASS);
  }
}
