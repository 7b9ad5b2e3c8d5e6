/** One run of five events in which the governor sends a second SIGTERM to a process whose first one
    is outstanding: two completed ticks, a pass, a failed tick, a pass. Everything the run theorems
    assume of a run holds of it. */
module StaleRun {
  import opened Options
  import opened Kernel
  import opened Rings
  import opened Model
  import opened Executor
  import opened Protocol
  import opened Runs
  import opened RateLimit
  import opened Sustain
  import opened Discipline
  import opened Scenario

  const CONFIG := Config(Policy({}, {}, true, 5, 3, 60), true, 100, 50)
  const INIT := Initial(Thresholds(90.0, 90.0, 90.0), 10)
  const FAILED := TickInput(Seconds(21), None, None)

  const TICKS: seq<Event> := TwoTicks(Seconds(10), None)
  const BEFORE_LAST: seq<Event> := TICKS + [PassEvent(Views(Seconds(20)), [])] + [TickEvent(FAILED)]
  const STALE_RUN: seq<Event> := BEFORE_LAST + [PassEvent(Views(Seconds(22)), [])]

  /** Everything that makes the turn of `PID` at `at` a repetition. */
  ghost predicate Ready(t: State, at: Time) {
    && Legal(CONFIG, t, PassEvent(Views(at), []))
    && Candidates(t.decisions) == t.decisions && |t.decisions| == 1 && t.decisions[0].pid == PID
    && FindRow(t.annotated, PID).Some? && PID in t.exec.pending && |t.log| == 1
    && Sustained(t, PID, at) && t.clock <= at
  }

  lemma BothPasses(s: State)
    requires Marked(s, Seconds(10), 10)
    ensures var p := Pass(CONFIG, s, Views(Seconds(20)), []);
            && Legal(CONFIG, s, PassEvent(Views(Seconds(20)), []))
            && Legal(CONFIG, p, TickEvent(FAILED))
            && Ready(Tick(CONFIG, p, FAILED), Seconds(22))
  {
    hide Actuated;
    Fires(CONFIG, s, Seconds(20));
    PassIsItsTurn(CONFIG, s, Seconds(20));
    var p := Pass(CONFIG, s, Views(Seconds(20)), []);
    PassClock(s, Seconds(20));
    hide Pass;
    var t := Tick(CONFIG, p, FAILED);
    assert t == p.(clock := Seconds(21));
    Fires(CONFIG, t, Seconds(22));
    PassIsItsTurn(CONFIG, t, Seconds(22));
  }

  lemma PassClock(s: State, t: Time)
    requires |Candidates(s.decisions)| == 1 && s.clock <= t
    ensures Pass(CONFIG, s, Views(t), []).clock <= t
  {
    PassIsItsTurn(CONFIG, s, t);
    hide Pass, PushBounded, Tag;
    NoTurnYet(CONFIG, s, t);
  }

  lemma {:induction false} AtMostAll(log: seq<Observation>, since: Time)
    ensures SigtermsSince(log, since) <= |log|
  {
    if log != [] {
      AtMostAll(log[..|log| - 1], since);
    }
  }

  lemma BeforeLastRun()
    ensures LegalRun(CONFIG, INIT, BEFORE_LAST) && Ready(Run(CONFIG, INIT, BEFORE_LAST), Seconds(22))
  {
    TwoTicksMark(CONFIG, INIT, Seconds(10), None);
    hide Run, LegalRun, Legal, Marked, Ready, TwoTicks;
    var pass := PassEvent(Views(Seconds(20)), []);
    BothPasses(Run(CONFIG, INIT, TICKS));
    RunSnoc(CONFIG, INIT, TICKS, pass);
    RunSnoc(CONFIG, INIT, TICKS + [pass], TickEvent(FAILED));
  }

  lemma LastTurnRepeats(events: seq<Event>, at: Time)
    requires LegalRun(CONFIG, INIT, events) && Ready(Run(CONFIG, INIT, events), at)
    ensures !NoneRepeated(Step(CONFIG, Run(CONFIG, INIT, events), PassEvent(Views(at), [])).log)
  {
    hide Run, LegalRun, Legal, NoneRepeated, Actuated, Pass, KillByPid, Due, Sustained, SinceIsStretchStart;
    var t := Run(CONFIG, INIT, events);
    BreachSinceIsStretchStart(CONFIG, INIT, events);
    SustainedIffDue(t, PID, at);
    AtMostAll(t.log, at - CONFIG.policy.Window());
    Deliverable(at);
    NoTurnYet(CONFIG, t, at);
    TurnRepeatsIff(CONFIG, INIT, events, Views(at), [], 0);
    PassIsItsTurn(CONFIG, t, at);
  }

  /** The discipline of `NoSecondSigterm` is needed: this legal run repeats a SIGTERM. */
  lemma SecondSigtermHappens()
    ensures IsInitial(INIT) && LegalRun(CONFIG, INIT, STALE_RUN)
    ensures !NoneRepeated(Run(CONFIG, INIT, STALE_RUN).log)
  {
    BeforeLastRun();
    assert Legal(CONFIG, Run(CONFIG, INIT, BEFORE_LAST), PassEvent(Views(Seconds(22)), []));
    hide NoneRepeated, Run, LegalRun, Legal, Step, Ready;
    LastTurnRepeats(BEFORE_LAST, Seconds(22));
    RunSnoc(CONFIG, INIT, BEFORE_LAST, PassEvent(Views(Seconds(22)), []));
  }
}
