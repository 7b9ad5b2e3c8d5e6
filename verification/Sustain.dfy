/** The sustain gate over whole runs: the breach-since map is the start of the current unbroken
    stretch of completed ticks, and a candidate is signalled in the first pass that finds its
    stretch long enough, its row present and room in the budget; otherwise it is left alone. */
module Sustain {
  import opened Options
  import opened Kernel
  import opened Model
  import opened Executor
  import opened Protocol
  import opened Runs
  import opened RateLimit

  /** Tick `j` is the first of the unbroken stretch of completed ticks, up to the last one, that all
      found `pid` in breach. */
  ghost predicate StretchFrom(ticks: seq<TickRecord>, pid: Pid, j: nat) {
    && j < |ticks|
    && (forall i :: j <= i < |ticks| ==> pid in ticks[i].breaching)
    && (j > 0 ==> pid !in ticks[j - 1].breaching)
  }

  /** The breach-since map holds exactly the PIDs of the last tick's breach set, each with the stamp
      of the first tick of its stretch. */
  ghost predicate SinceIsStretchStart(s: State) {
    && s.breachSince.Keys == (if s.ticks == [] then {} else s.ticks[|s.ticks| - 1].breaching)
    && (forall pid <- s.breachSince ::
          s.breachSince[pid] <= s.clock
          && exists j: nat :: StretchFrom(s.ticks, pid, j) && s.breachSince[pid] == s.ticks[j].now)
  }

  lemma StretchStartUnique(ticks: seq<TickRecord>, pid: Pid, i: nat, j: nat)
    requires StretchFrom(ticks, pid, i) && StretchFrom(ticks, pid, j)
    ensures i == j
  {
    assert i > 0 ==> ticks[i - 1] == ticks[i - 1];
    assert j > 0 ==> ticks[j - 1] == ticks[j - 1];
  }

  /** One more tick: a PID still in breach keeps its stretch, a newcomer starts one, and a PID absent
      for a single tick has lost its own. */
  lemma StretchPush(ticks: seq<TickRecord>, since: map<Pid, Time>, r: TickRecord, clock: Time)
    requires since.Keys == (if ticks == [] then {} else ticks[|ticks| - 1].breaching)
    requires forall pid <- since ::
               since[pid] <= clock && exists j: nat :: StretchFrom(ticks, pid, j) && since[pid] == ticks[j].now
    requires clock <= r.now
    ensures var next := Refresh(since, r.breaching, r.now);
            forall pid <- next ::
              next[pid] <= r.now && exists j: nat :: StretchFrom(ticks + [r], pid, j) && next[pid] == (ticks + [r])[j].now
  {
    var next := Refresh(since, r.breaching, r.now);
    forall pid <- next
      ensures next[pid] <= r.now
      ensures exists j: nat :: StretchFrom(ticks + [r], pid, j) && next[pid] == (ticks + [r])[j].now
    {
      if pid in since {
        var j: nat :| StretchFrom(ticks, pid, j) && since[pid] == ticks[j].now;
        assert StretchFrom(ticks + [r], pid, j);
      } else {
        assert StretchFrom(ticks + [r], pid, |ticks|);
      }
    }
  }

  lemma SinceStep(cfg: Config, s: State, op: Op)
    requires SinceIsStretchStart(s) && Allowed(cfg, s, op)
    ensures SinceIsStretchStart(Apply(cfg, s, op))
  {
    match op
    case Term(_, _, _, _, _, _, _) => TermShows(cfg, s, op);
    case Kill(_, _, _, _, _) => KillShows(cfg, s, op);
    case Exit(_, _, _) => ExitShows(cfg, s, op);
    case Advance(_, _) => QuietShows(cfg, s, op);
    case Hold(_) => QuietShows(cfg, s, op);
    case Judge(sample, now) => JudgeStep(cfg, s, sample, now);
  }

  lemma JudgeStep(cfg: Config, s: State, sample: Sample, now: Time)
    requires SinceIsStretchStart(s) && s.clock <= now
    ensures SinceIsStretchStart(Assess(cfg, s, sample, now))
  {
    hide Project, Evaluate, Trim;
    StretchPush(s.ticks, s.breachSince, TickRecord(now, BreachingPids(s)), s.clock);
  }

  lemma {:induction false} SinceAfter(cfg: Config, born: iset<Instance>, init: State, ops: seq<Op>)
    requires IsInitial(init) && LegalOps(cfg, born, init, ops)
    ensures SinceIsStretchStart(After(cfg, init, ops))
    decreases |ops|
  {
    if ops == [] {
    } else {
      hide Allowed, SinceIsStretchStart;
      var n := |ops| - 1;
      SinceAfter(cfg, born, init, ops[..n]);
      SinceStep(cfg, After(cfg, init, ops[..n]), ops[n]);
    }
  }

  /** The run invariant of `breach_since`. */
  lemma BreachSinceIsStretchStart(cfg: Config, init: State, events: seq<Event>)
    requires IsInitial(init) && LegalRun(cfg, init, events)
    ensures SinceIsStretchStart(Run(cfg, init, events))
  {
    var ops := RunOps(cfg, Anyone(), init, events);
    SinceAfter(cfg, Anyone(), init, ops);
  }

  // ---------------------------------------------------------------- the gates of one candidate

  /** The PID has been in breach in every completed tick since some tick at least the current
      sustain time before `at`. */
  ghost predicate Due(s: State, pid: Pid, at: Time) {
    exists j: nat :: StretchFrom(s.ticks, pid, j) && s.ticks[j].now + s.sustainSecs * SECOND <= at
  }

  lemma SustainedIffDue(s: State, pid: Pid, at: Time)
    requires SinceIsStretchStart(s) && s.clock <= at
    ensures Sustained(s, pid, at) <==> Due(s, pid, at)
  {
    if Sustained(s, pid, at) {
      var j: nat :| StretchFrom(s.ticks, pid, j) && s.breachSince[pid] == s.ticks[j].now;
      assert s.ticks[j].now + s.sustainSecs * SECOND <= at;
    }
    if Due(s, pid, at) {
      var j: nat :| StretchFrom(s.ticks, pid, j) && s.ticks[j].now + s.sustainSecs * SECOND <= at;
      assert pid in s.ticks[|s.ticks| - 1].breaching;
      var i: nat :| StretchFrom(s.ticks, pid, i) && s.breachSince[pid] == s.ticks[i].now;
      StretchStartUnique(s.ticks, pid, i, j);
    }
  }

  /** Room for one more kill in the window that ends now, by the log. */
  predicate HasRoom(cfg: Config, log: seq<Observation>, now: Time) {
    cfg.policy.maxKills == 0 || SigtermsSince(log, now - cfg.policy.windowSecs * 1_000_000_000) < cfg.policy.maxKills
  }

  lemma ActuateExactly(cfg: Config, s: State, c: Decision, start: Time, v: View)
    requires Budgeted(cfg, s) && s.clock <= v.now
    ensures var t := Actuate(cfg, s, c, start, v);
            var row := FindRow(s.annotated, c.pid);
            if Sustained(s, c.pid, start) && row.Some? && HasRoom(cfg, s.log, v.now) then
              t.log == s.log + [TermObservation(Automated, c.pid, row.value.name, Some(row.value.category), c.reason, v)]
            else
              t.log == s.log && t.exec.pending == s.exec.pending && t.audit == s.audit && t.killed == s.killed
  {
    TrimStep(cfg, s, v.now);
    var u := HeldAt(cfg, s, v.now);
    var row := FindRow(s.annotated, c.pid);
    if Sustained(s, c.pid, start) && row.Some? && !Exceeded(u.exec, cfg.policy) {
      TermShows(cfg, u, Term(Automated, c.pid, row.value.name, Some(row.value.category), Inference, c.reason, v));
    }
  }

  /** Progress and restraint at once. In any legal run, at the turn of any candidate of any audit
      pass: a SIGTERM is attempted if and only if the PID's stretch of breaching ticks began at least
      `kill_sustain_secs` before the pass, its annotated row is there, and the kills delivered so far,
      earlier candidates of this pass included, leave room in the window. Otherwise neither the log,
      the pending entries, the audit ring nor the tags change. */
  lemma CandidateFiresExactlyWhenDue(cfg: Config, init: State, events: seq<Event>, os: nat -> View, order: seq<Pid>, i: nat)
    requires IsInitial(init) && LegalRun(cfg, init, events) && cfg.autoActuate
    requires Legal(cfg, Run(cfg, init, events), PassEvent(os, order))
    requires i < |Candidates(Run(cfg, init, events).decisions)|
    ensures var s := Run(cfg, init, events);
            var c := Candidates(s.decisions)[i];
            var row := FindRow(s.annotated, c.pid);
            var before := Actuated(cfg, s, os, i);
            var after := Actuated(cfg, s, os, i + 1);
            if Due(s, c.pid, os(0).now) && row.Some? && HasRoom(cfg, before.log, os(i + 1).now) then
              after.log == before.log
                + [TermObservation(Automated, c.pid, row.value.name, Some(row.value.category), c.reason, os(i + 1))]
            else
              && after.log == before.log && after.exec.pending == before.exec.pending
              && after.audit == before.audit && after.killed == before.killed
  {
    var s := Run(cfg, init, events);
    var u := Actuated(cfg, s, os, i);
    PassPrefix(cfg, init, events, os, order, i);
    BreachSinceIsStretchStart(cfg, init, events);
    hide Run, LegalRun, Actuate, SinceIsStretchStart, Budgeted, TermObservation;
    var c := Candidates(s.decisions)[i];
    SustainedIffDue(s, c.pid, os(0).now);
    assert Sustained(u, c.pid, os(0).now) == Sustained(s, c.pid, os(0).now);
    ActuateExactly(cfg, u, c, os(0).now, os(i + 1));
  }

  /** What is known when candidate `i`'s turn comes. */
  lemma PassPrefix(cfg: Config, init: State, events: seq<Event>, os: nat -> View, order: seq<Pid>, i: nat)
    requires IsInitial(init) && LegalRun(cfg, init, events) && cfg.autoActuate
    requires Legal(cfg, Run(cfg, init, events), PassEvent(os, order))
    requires i < |Candidates(Run(cfg, init, events).decisions)|
    ensures var s := Run(cfg, init, events);
            var u := Actuated(cfg, s, os, i);
            Budgeted(cfg, u) && SamePlan(s, u) && u.clock <= os(i + 1).now && s.clock <= os(0).now
  {
    hide Budgeted, LegalOps, After, Actuated, Run, LegalRun, Candidates;
    var s := Run(cfg, init, events);
    var past := RunOps(cfg, Anyone(), init, events);
    var turns := ActuatedOps(cfg, Anyone(), s, os, i);
    Concat(cfg, Anyone(), init, past, turns);
    BudgetAfter(cfg, Anyone(), init, past + turns);
    assert os(i).now <= os(i + 1).now;
  }
}
