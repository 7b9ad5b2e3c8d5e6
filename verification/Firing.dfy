/** The decision of a tick and the gates of the pass after it, put together: exactly when a process gets an
    automated SIGTERM. */
module Firing {
  import opened Options
  import opened Kernel
  import opened Rings
  import opened Model
  import opened Executor
  import opened Protocol
  import opened Runs
  import opened SigkillSafety
  import opened RateLimit
  import opened Sustain
  import opened Gates
  import Discipline

  /** From `from` on the log has a SIGTERM to `pid`, delivered or not. */
  ghost predicate AttemptedIn(log: seq<Observation>, from: nat, pid: Pid) {
    exists k :: from <= k < |log| && log[k].Attempt? && log[k].entry.action.AuditSigterm? && log[k].entry.pid == pid
  }

  /** Every gate of a turn is open: the stretch long enough, the row there, room in the window. */
  ghost predicate Opens(cfg: Config, s: State, os: nat -> View, pid: Pid, i: nat)
    requires i <= |Candidates(s.decisions)|
  {
    Due(s, pid, os(0).now) && FindRow(s.annotated, pid).Some? && HasRoom(cfg, Actuated(cfg, s, os, i).log, os(i + 1).now)
  }

  /** The place of `pid` among the candidates; past the end when it is none. */
  function TurnOf(candidates: seq<Decision>, pid: Pid): (i: nat)
    ensures i <= |candidates|
    ensures i < |candidates| ==> candidates[i].pid == pid
    ensures forall j :: 0 <= j < i ==> candidates[j].pid != pid
  {
    if candidates == [] || candidates[0].pid == pid then 0 else 1 + TurnOf(candidates[1..], pid)
  }

  // ---------------------------------------------------------------- any pass

  lemma AttemptPush(log: seq<Observation>, o: Observation, from: nat, pid: Pid)
    requires from <= |log|
    ensures AttemptedIn(log + [o], from, pid)
            <==> AttemptedIn(log, from, pid) || (o.Attempt? && o.entry.action.AuditSigterm? && o.entry.pid == pid)
  {
    var all := log + [o];
    assert all[|log|] == o && forall k :: 0 <= k < |log| ==> all[k] == log[k];
  }

  lemma OneTurn(cfg: Config, init: State, events: seq<Event>, os: nat -> View, order: seq<Pid>, pid: Pid, i: nat)
    requires IsInitial(init) && LegalRun(cfg, init, events) && cfg.autoActuate
    requires Legal(cfg, Run(cfg, init, events), PassEvent(os, order))
    requires i < |Candidates(Run(cfg, init, events).decisions)|
    requires |Actuated(cfg, Run(cfg, init, events), os, i).log| >= |Run(cfg, init, events).log|
    ensures var s := Run(cfg, init, events);
            var c, before, after := Candidates(s.decisions)[i], Actuated(cfg, s, os, i).log, Actuated(cfg, s, os, i + 1).log;
            && |after| >= |before|
            && (AttemptedIn(after, |s.log|, pid)
                <==> AttemptedIn(before, |s.log|, pid) || (c.pid == pid && Opens(cfg, s, os, pid, i)))
  {
    CandidateFiresExactlyWhenDue(cfg, init, events, os, order, i);
    var s := Run(cfg, init, events);
    hide Run, LegalRun, Legal, Candidates, Due, HasRoom, TermObservation, Actuated, AttemptedIn;
    var c := Candidates(s.decisions)[i];
    var row := FindRow(s.annotated, c.pid);
    if row.Some? {
      AttemptPush(Actuated(cfg, s, os, i).log,
                  TermObservation(Automated, c.pid, row.value.name, Some(row.value.category), c.reason, os(i + 1)),
                  |s.log|, pid);
    }
  }

  lemma {:induction false} AttemptedByTurn(cfg: Config, init: State, events: seq<Event>, os: nat -> View, order: seq<Pid>,
                                           pid: Pid, n: nat)
    requires IsInitial(init) && LegalRun(cfg, init, events) && cfg.autoActuate
    requires Legal(cfg, Run(cfg, init, events), PassEvent(os, order))
    requires n <= |Candidates(Run(cfg, init, events).decisions)|
    ensures var s := Run(cfg, init, events);
            var c := Candidates(s.decisions);
            && |Actuated(cfg, s, os, n).log| >= |s.log|
            && (AttemptedIn(Actuated(cfg, s, os, n).log, |s.log|, pid)
                <==> exists i: nat :: i < n && c[i].pid == pid && Opens(cfg, s, os, pid, i))
  {
    hide Run, LegalRun, Legal, Candidates, Opens, Actuated;
    if n == 0 {
      NoTurnYet(cfg, Run(cfg, init, events), os);
    } else {
      hide AttemptedIn;
      AttemptedByTurn(cfg, init, events, os, order, pid, n - 1);
      OneTurn(cfg, init, events, os, order, pid, n - 1);
    }
  }

  lemma NoTurnYet(cfg: Config, s: State, os: nat -> View)
    ensures Actuated(cfg, s, os, 0) == s
  {
  }

  lemma EscalationsAreNoSigterms(log: seq<Observation>, longer: seq<Observation>, from: nat, e: Exec, order: seq<Pid>,
                                 os: nat -> View, base: nat, pid: Pid)
    requires from <= |log| <= |longer| && longer[..|log|] == log && ShowsTurns(longer, |log|, e, order, os, base)
    ensures AttemptedIn(longer, from, pid) <==> AttemptedIn(log, from, pid)
  {
    hide Reachable;
    assert forall k :: 0 <= k < |log| ==> longer[k] == log[k];
    forall k | |log| <= k < |longer|
      ensures longer[k].Attempt? && !longer[k].entry.action.AuditSigterm?
    {
      var j := k - |log|;
      assert IsEscalation(longer[|log| + j], order[j], Reachable(e.pending[order[j]], order[j], os(base + j)));
    }
  }

  /** What the SIGKILL half of a pass adds. */
  lemma EscalationShows(cfg: Config, init: State, events: seq<Event>, os: nat -> View, order: seq<Pid>)
    requires IsInitial(init) && LegalRun(cfg, init, events) && cfg.autoActuate
    requires Legal(cfg, Run(cfg, init, events), PassEvent(os, order))
    ensures var s := Run(cfg, init, events);
            var n := |Candidates(s.decisions)|;
            var t, log := Actuated(cfg, s, os, n), Pass(cfg, s, os, order).log;
            |log| >= |t.log| && log[..|t.log|] == t.log && ShowsTurns(log, |t.log|, t.exec, order, os, n + 2)
  {
    hide Run, LegalRun, Legal, Candidates, Actuated, Escalate, Pass, Reachable, TokensFit, PendingDescribesLog, GraceExpired,
         ShowsTurns;
    AfterCandidates(cfg, init, events, os, order);
    var s := Run(cfg, init, events);
    var n := |Candidates(s.decisions)|;
    PassIs(cfg, s, os, order);
    EscalateLog(cfg, Actuated(cfg, s, os, n), order, os, n + 2);
  }

  /** In any legal pass a SIGTERM to `pid` is attempted if and only if some turn of it opens. */
  lemma PassAttemptsIff(cfg: Config, init: State, events: seq<Event>, os: nat -> View, order: seq<Pid>, pid: Pid)
    requires IsInitial(init) && LegalRun(cfg, init, events) && cfg.autoActuate
    requires Legal(cfg, Run(cfg, init, events), PassEvent(os, order))
    ensures var s := Run(cfg, init, events);
            var c := Candidates(s.decisions);
            AttemptedIn(Pass(cfg, s, os, order).log, |s.log|, pid)
            <==> exists i: nat :: i < |c| && c[i].pid == pid && Opens(cfg, s, os, pid, i)
  {
    hide Run, LegalRun, Legal, Candidates, Actuated, Pass, Opens, AttemptedIn;
    var s := Run(cfg, init, events);
    var n := |Candidates(s.decisions)|;
    var t := Actuated(cfg, s, os, n);
    AttemptedByTurn(cfg, init, events, os, order, pid, n);
    EscalationShows(cfg, init, events, os, order);
    hide ShowsTurns;
    EscalationsAreNoSigterms(t.log, Pass(cfg, s, os, order).log, |s.log|, t.exec, order, os, n + 2, pid);
  }

  // ---------------------------------------------------------------- a pass after a completed tick

  lemma {:induction false} DrainedKeepsTables(cfg: Config, s: State, sample: Sample, now: Time, n: nat)
    requires n <= |sample.exits|
    ensures var t := Drained(cfg, s, sample, now, n);
            t.annotated == s.annotated && t.platform == s.platform && t.thresholds == s.thresholds
  {
    if n > 0 {
      hide PushBounded, ReasonOf, WireOf;
      DrainedKeepsTables(cfg, s, sample, now, n - 1);
    }
  }

  lemma ProjectReadsTables(s: State, t: State)
    requires t.annotated == s.annotated && t.platform == s.platform && t.thresholds == s.thresholds
    ensures Project(t) == Project(s)
  {
  }

  /** What a completed tick decides, from the tables it found and the settings it picked up. */
  lemma TickDecidesBy(cfg: Config, s: State, input: TickInput)
    requires input.sample.Some?
    ensures var t := Tick(cfg, s, input);
            t.decisions == Evaluate(t.exec, cfg.policy, input.sample.value.processes, Project(Tune(s, input)))
  {
    var sample := input.sample.value;
    var drained := Drained(cfg, Tune(s, input), sample, input.now, |sample.exits|);
    DrainedKeepsTables(cfg, Tune(s, input), sample, input.now, |sample.exits|);
    ProjectReadsTables(Tune(s, input), drained);
    hide Project, BreachingPids, Refresh, Drained, Evaluate;
  }

  /** The executor finds the window full at a tick exactly when the log has it full. */
  lemma FullByTheLog(cfg: Config, s: State, input: TickInput)
    requires input.sample.Some? && Budgeted(cfg, Tick(cfg, s, input))
    ensures var t := Tick(cfg, s, input);
            Exceeded(t.exec, cfg.policy) <==> !HasRoom(cfg, t.log, input.now)
  {
    var t := Tick(cfg, s, input);
    hide Evaluate, SigtermsSince, CountFrom, Candidates, Project, BreachingPids, Refresh, Drained, WithinBudget;
    var cutoff := input.now - cfg.policy.Window();
    TrimTwice(Drained(cfg, Tune(s, input), input.sample.value, input.now, |input.sample.value.exits|).exec.recent, cutoff);
    assert Trim(t.exec.recent, cutoff) == t.exec.recent && t.clock == input.now;
    TrimCounts(t.exec.recent, cutoff, cutoff, t.clock);
  }

  lemma {:induction false} MarkedAreCandidates(decisions: seq<Decision>)
    ensures forall d <- decisions :: d.action.SignalTermSent? ==> d in Candidates(decisions)
  {
    if decisions != [] {
      MarkedAreCandidates(decisions[..|decisions| - 1]);
      assert decisions == decisions[..|decisions| - 1] + [decisions[|decisions| - 1]];
    }
  }

  /** The tick's verdict on one PID. */
  ghost predicate Condemned(cfg: Config, t: State, input: TickInput, b: Breaches, pid: Pid)
    requires input.sample.Some?
  {
    && pid in input.sample.value.processes
    && var lc := input.sample.value.processes[pid];
    && !lc.exited && pid !in t.exec.pending && cfg.policy.WantsKill(lc.name, lc.category)
    && (b.hot || pid in b.vram || pid in b.ram)
  }

  predicate DistinctPids(c: seq<Decision>) {
    forall i, j :: 0 <= i < j < |c| ==> c[i].pid != c[j].pid
  }

  lemma CandidateIffCondemned(cfg: Config, s: State, input: TickInput, pid: Pid)
    requires input.sample.Some?
    ensures var t := Tick(cfg, s, input);
            var c := Candidates(t.decisions);
            && DistinctPids(c)
            && ((exists i :: 0 <= i < |c| && c[i].pid == pid)
                <==> Condemned(cfg, t, input, Project(Tune(s, input)), pid) && !Exceeded(t.exec, cfg.policy))
  {
    var t, b := Tick(cfg, s, input), Project(Tune(s, input));
    var processes := input.sample.value.processes;
    TickDecidesBy(cfg, s, input);
    hide Tick, Project, Evaluate, Exceeded;
    MarkedIffCondemned(cfg, t, input, b, pid);
    Discipline.DecisionTable(t.exec, cfg.policy, processes, b);
    Discipline.CandidatesAscend(t.decisions);
    MarkedAreCandidates(t.decisions);
    hide Candidates, Condemned;
    var c := Candidates(t.decisions);
    if i :| 0 <= i < |c| && c[i].pid == pid {
      assert c[i] in c;
    }
  }

  lemma MarkedIffCondemned(cfg: Config, t: State, input: TickInput, b: Breaches, pid: Pid)
    requires input.sample.Some?
    requires t.decisions == Evaluate(t.exec, cfg.policy, input.sample.value.processes, b)
    ensures (exists d <- t.decisions :: d.pid == pid && d.action.SignalTermSent?)
            <==> Condemned(cfg, t, input, b, pid) && !Exceeded(t.exec, cfg.policy)
  {
    Discipline.DecisionTable(t.exec, cfg.policy, input.sample.value.processes, b);
    hide Evaluate, Exceeded;
    if d :| d in t.decisions && d.pid == pid && d.action.SignalTermSent? {
      var k :| 0 <= k < |t.decisions| && t.decisions[k] == d;
    }
    if Condemned(cfg, t, input, b, pid) && !Exceeded(t.exec, cfg.policy) {
      var k :| 0 <= k < |t.decisions| && t.decisions[k].pid == pid;
      assert t.decisions[k] in t.decisions;
    }
  }

  /** Exactly when a process is signalled. In any legal run, a completed tick and the armed pass right after it
      attempt a SIGTERM on a PID if and only if the tick found it alive, not pending, condemned by policy and
      in breach, itself or by the heat of the host, the log left room in the window at the tick, the PID's
      stretch of breaching ticks is long enough at the pass, its row is there, and the log leaves room again at
      its own turn. */
  lemma SignalledIff(cfg: Config, init: State, events: seq<Event>, input: TickInput, os: nat -> View, order: seq<Pid>, pid: Pid)
    requires IsInitial(init) && LegalRun(cfg, init, events + [TickEvent(input)]) && input.sample.Some? && cfg.autoActuate
    requires Legal(cfg, Run(cfg, init, events + [TickEvent(input)]), PassEvent(os, order))
    ensures var s, t := Run(cfg, init, events), Run(cfg, init, events + [TickEvent(input)]);
            AttemptedIn(Pass(cfg, t, os, order).log, |t.log|, pid)
            <==> && Condemned(cfg, t, input, Project(Tune(s, input)), pid)
                 && HasRoom(cfg, t.log, input.now)
                 && Opens(cfg, t, os, pid, TurnOf(Candidates(t.decisions), pid))
  {
    var all := events + [TickEvent(input)];
    var s, t := Run(cfg, init, events), Run(cfg, init, all);
    PassAttemptsIff(cfg, init, all, os, order, pid);
    TickCondemns(cfg, init, events, input, pid);
    hide Run, LegalRun, Legal, Pass, Candidates, Opens, Condemned, HasRoom, Project, AttemptedIn, TurnOf;
  }

  lemma TickCondemns(cfg: Config, init: State, events: seq<Event>, input: TickInput, pid: Pid)
    requires IsInitial(init) && LegalRun(cfg, init, events + [TickEvent(input)]) && input.sample.Some?
    ensures var s, t := Run(cfg, init, events), Run(cfg, init, events + [TickEvent(input)]);
            var c := Candidates(t.decisions);
            && (forall i :: 0 <= i < |c| && c[i].pid == pid ==> i == TurnOf(c, pid))
            && (TurnOf(c, pid) < |c|
                <==> Condemned(cfg, t, input, Project(Tune(s, input)), pid) && HasRoom(cfg, t.log, input.now))
  {
    RunBudgeted(cfg, init, events + [TickEvent(input)]);
    Discipline.RunSnoc(cfg, init, events, TickEvent(input));
    var s := Run(cfg, init, events);
    hide Run, LegalRun, Legal, Tick, Candidates, Condemned, HasRoom, Exceeded, Project, Budgeted, TurnOf;
    StepIsTick(cfg, s, input);
    FullByTheLog(cfg, s, input);
    CandidateAtItsTurn(cfg, s, input, pid);
  }

  lemma CandidateAtItsTurn(cfg: Config, s: State, input: TickInput, pid: Pid)
    requires input.sample.Some?
    ensures var t := Tick(cfg, s, input);
            var c := Candidates(t.decisions);
            && (forall i :: 0 <= i < |c| && c[i].pid == pid ==> i == TurnOf(c, pid))
            && (TurnOf(c, pid) < |c| <==> Condemned(cfg, t, input, Project(Tune(s, input)), pid) && !Exceeded(t.exec, cfg.policy))
  {
    hide Tick, Condemned, Exceeded, Project, DistinctPids;
    CandidateIffCondemned(cfg, s, input, pid);
    OnlyTurn(Candidates(Tick(cfg, s, input).decisions), pid);
  }

  lemma OnlyTurn(c: seq<Decision>, pid: Pid)
    requires DistinctPids(c)
    ensures forall i :: 0 <= i < |c| && c[i].pid == pid ==> i == TurnOf(c, pid)
  {
  }
}
