/** The two opt-ins of the kill path, over whole runs: what a closed `auto_actuate` gate and a policy
    that condemns nobody each rule out, and the one kind of kill the second does not. */
module Gates {
  import opened Kernel
  import opened Rings
  import opened Model
  import Sorting
  import opened Executor
  import opened Protocol
  import opened Runs
  import opened SigkillSafety
  import opened RateLimit
  import Discipline

  /** The shipped default: no block list, AI processes allowed. */
  predicate CondemnsNobody(policy: Policy) {
    policy.block == {} && !policy.killByDefault
  }

  predicate NothingMarked(decisions: seq<Decision>) {
    forall d <- decisions :: !d.action.SignalTermSent?
  }

  predicate IsAutomated(o: Observation) {
    o.Attempt? && o.entry.source.Automated?
  }

  ghost predicate Gated(cfg: Config, s: State) {
    && (!cfg.autoActuate ==> forall o <- s.log :: !IsAutomated(o))
    && (CondemnsNobody(cfg.policy) ==>
          && NothingMarked(s.decisions)
          && forall o <- s.log :: IsAutomated(o) ==> !o.entry.action.AuditSigterm?)
  }

  lemma NobodyMarked(e: Exec, policy: Policy, processes: map<Pid, Lifecycle>, b: Breaches)
    requires CondemnsNobody(policy)
    ensures NothingMarked(Evaluate(e, policy, processes, b))
  {
    hide Sorting.Ascending;
  }

  lemma GatedStep(cfg: Config, s: State, op: Op)
    requires Gated(cfg, s) && Allowed(cfg, s, op)
    ensures Gated(cfg, Apply(cfg, s, op))
  {
    match op
    case Term(source, pid, name, category, fallback, reason, v) =>
      TermShows(cfg, s, op);
      hide Apply, TermObservation;
    case Kill(source, pid, name, category, v) =>
      KillShows(cfg, s, op);
      hide Apply, KillObservation;
    case Exit(_, _, _) =>
      ExitShows(cfg, s, op);
      hide Apply;
    case Judge(sample, now) => JudgeStep(cfg, s, sample, now);
    case _ => QuietShows(cfg, s, op);
  }

  lemma JudgeStep(cfg: Config, s: State, sample: Sample, now: Time)
    requires Gated(cfg, s)
    ensures Gated(cfg, Assess(cfg, s, sample, now))
  {
    hide Evaluate, Project, BreachingPids, Refresh;
    if CondemnsNobody(cfg.policy) {
      NobodyMarked(Trimmed(s.exec, cfg.policy, now), cfg.policy, sample.processes, Project(s));
    }
  }

  lemma {:induction false} GatedAfter(cfg: Config, born: iset<Instance>, init: State, ops: seq<Op>)
    requires IsInitial(init) && LegalOps(cfg, born, init, ops)
    ensures Gated(cfg, After(cfg, init, ops))
    decreases |ops|
  {
    if ops == [] {
    } else {
      hide Gated, Allowed, Apply;
      var n := |ops| - 1;
      GatedAfter(cfg, born, init, ops[..n]);
      GatedStep(cfg, After(cfg, init, ops[..n]), ops[n]);
    }
  }

  /** In every legal run: with `auto_actuate` off, every attempted signal is the operator's. With a
      policy that condemns nobody, no automated SIGTERM is ever attempted, and any automated SIGKILL
      that is delivered answers a SIGTERM the operator sent. */
  lemma TwoGates(cfg: Config, init: State, events: seq<Event>)
    requires IsInitial(init) && LegalRun(cfg, init, events)
    ensures var log := Run(cfg, init, events).log;
            && (!cfg.autoActuate ==> forall o <- log :: !IsAutomated(o))
            && (CondemnsNobody(cfg.policy) ==>
                  && (forall o <- log :: IsAutomated(o) ==> !o.entry.action.AuditSigterm?)
                  && (forall k :: 0 <= k < |log| && IsAutomated(log[k]) && IsKill(log[k], log[k].entry.pid) ==>
                        exists i: nat :: AnswersAt(cfg, log, k, i) && log[i].entry.source.Manual?))
  {
    hide Run, LegalRun, LegalOps, After, PendingDescribesLog, Allowed;
    var ops := RunOps(cfg, Anyone(), init, events);
    GatedAfter(cfg, Anyone(), init, ops);
    SafeAfter(cfg, Anyone(), init, ops);
    var log := Run(cfg, init, events).log;
    if CondemnsNobody(cfg.policy) {
      forall k | 0 <= k < |log| && IsAutomated(log[k]) && IsKill(log[k], log[k].entry.pid)
        ensures exists i: nat :: AnswersAt(cfg, log, k, i) && log[i].entry.source.Manual?
      {
        var i: nat :| AnswersAt(cfg, log, k, i);
        assert log[i] in log;
      }
    }
  }

  // ---------------------------------------------------------------- when an entry is escalated

  /** A SIGKILL for this entry would land: somebody owns the PID, may be signalled, and is the instance
      the pidfd pins or, without a pidfd, shows the recorded start tick. */
  predicate Reachable(p: Pending, pid: Pid, v: View) {
    && pid in v.live && pid in v.permitted
    && if p.pidfd.Some? then v.live[pid] == p.pidfd.value
       else p.starttime.Some? && pid in v.statReadable && v.live[pid].start == p.starttime.value
  }

  lemma SigkillLandsIff(e: Exec, pid: Pid, v: View)
    requires pid in e.pending && (e.pending[pid].pidfd.Some? ==> e.pending[pid].pidfd.value.pid == pid)
    ensures HitOf(SendSigkill(e, pid, v).1).Some? <==> Reachable(e.pending[pid], pid, v)
  {
  }

  ghost predicate TokensFit(e: Exec) {
    forall pid <- e.pending :: e.pending[pid].pidfd.Some? ==> e.pending[pid].pidfd.value.pid == pid
  }

  /** The observation an escalation adds. */
  ghost predicate IsEscalation(o: Observation, pid: Pid, landed: bool) {
    && IsAutomated(o) && o.entry.pid == pid && !o.entry.action.AuditSigterm?
    && (o.hit.Some? <==> landed) && (o.hit.Some? ==> o.entry.action.AuditSigkill?)
  }

  /** From `at` on the log shows the turns of `order`, each landing when its entry in `e` is reachable. */
  ghost predicate ShowsTurns(log: seq<Observation>, at: nat, e: Exec, order: seq<Pid>, os: nat -> View, base: nat) {
    && |log| == at + |order|
    && (forall j :: 0 <= j < |order| ==> order[j] in e.pending)
    && forall j :: 0 <= j < |order| ==>
         IsEscalation(log[at + j], order[j], Reachable(e.pending[order[j]], order[j], os(base + j)))
  }

  lemma OneMoreTurn(log: seq<Observation>, longer: seq<Observation>, at: nat, e: Exec, order: seq<Pid>, os: nat -> View, base: nat)
    requires order != [] && order[|order| - 1] in e.pending
    requires ShowsTurns(log, at, e, order[..|order| - 1], os, base)
    requires |longer| == |log| + 1 && longer[..|log|] == log
    requires var pid := order[|order| - 1];
             IsEscalation(longer[|log|], pid, Reachable(e.pending[pid], pid, os(base + |order| - 1)))
    ensures ShowsTurns(longer, at, e, order, os, base)
  {
    hide Reachable, IsEscalation;
    var n := |order| - 1;
    forall j | 0 <= j < |order|
      ensures order[j] in e.pending
      ensures IsEscalation(longer[at + j], order[j], Reachable(e.pending[order[j]], order[j], os(base + j)))
    {
      if j < n {
        assert longer[at + j] == log[at + j] && order[..n][j] == order[j];
      }
    }
  }

  /** The SIGKILL half of a pass adds one observation per entry, in order, and each lands exactly when its
      entry, as it was when the grace periods were checked, is reachable at its own instant. */
  lemma {:induction false} EscalateLog(cfg: Config, s: State, order: seq<Pid>, os: nat -> View, base: nat)
    requires TokensFit(s.exec) && (forall i :: 0 <= i < |order| ==> order[i] in s.exec.pending)
    requires forall i, j :: 0 <= i < j < |order| ==> order[i] != order[j]
    ensures var log := Escalate(cfg, s, order, os, base).log;
            |log| >= |s.log| && log[..|s.log|] == s.log && ShowsTurns(log, |s.log|, s.exec, order, os, base)
    decreases |order|
  {
    hide EscalateOne, Reachable, SendSigkill, TokensFit, IsEscalation, ShowsTurns;
    if order == [] {
      NoTurns(s, os, base);
    } else {
      var n := |order| - 1;
      var t := Escalate(cfg, s, order[..n], os, base);
      EscalateLog(cfg, s, order[..n], os, base);
      EscalateTouchesItsOrder(cfg, s, order[..n], os, base);
      assert order[n] !in order[..n];
      EscalationAdds(cfg, t, order[n], os(base + n), s.exec);
      OneMoreTurn(t.log, Escalate(cfg, s, order, os, base).log, |s.log|, s.exec, order, os, base);
    }
  }

  lemma NoTurns(s: State, os: nat -> View, base: nat)
    ensures ShowsTurns(s.log, |s.log|, s.exec, [], os, base)
  {
  }

  lemma EscalationAdds(cfg: Config, t: State, pid: Pid, v: View, e: Exec)
    requires TokensFit(e) && pid in e.pending && pid in t.exec.pending && t.exec.pending[pid] == e.pending[pid]
    ensures var u := EscalateOne(cfg, t, pid, v);
            && |u.log| == |t.log| + 1 && u.log[..|t.log|] == t.log
            && IsEscalation(u.log[|t.log|], pid, Reachable(e.pending[pid], pid, v))
  {
    SigkillLandsIff(t.exec, pid, v);
    var op := Kill(Automated, pid, Identity(t, pid).0, Identity(t, pid).1, v);
    KillShows(cfg, t, op);
    hide SendSigkill, Reachable, Slay, Identity, KillObservation;
  }

  /** The SIGTERM half adds nothing but SIGTERMs. */
  lemma {:induction false} ActuatedLog(cfg: Config, s: State, os: nat -> View, n: nat)
    requires n <= |Candidates(s.decisions)|
    ensures var log := Actuated(cfg, s, os, n).log;
            && |log| >= |s.log| && log[..|s.log|] == s.log
            && forall k :: |s.log| <= k < |log| ==> IsAutomated(log[k]) && log[k].entry.action.AuditSigterm?
  {
    if n > 0 {
      hide Actuate;
      ActuatedLog(cfg, s, os, n - 1);
      TurnAddsAtMostASigterm(cfg, Actuated(cfg, s, os, n - 1), Candidates(s.decisions)[n - 1], os(0).now, os(n));
    }
  }

  lemma TurnAddsAtMostASigterm(cfg: Config, s: State, c: Decision, start: Time, v: View)
    ensures var log := Actuate(cfg, s, c, start, v).log;
            log == s.log || exists o: Observation :: log == s.log + [o] && IsAutomated(o) && o.entry.action.AuditSigterm?
  {
    hide PushBounded, Tag, SendSigterm, Trim;
    var log := Actuate(cfg, s, c, start, v).log;
    if log != s.log {
      assert log == s.log + [log[|s.log|]] && IsAutomated(log[|s.log|]);
    }
  }

  /** Where a pass of a legal run stands when it has dealt with its candidates. */
  lemma AfterCandidates(cfg: Config, init: State, events: seq<Event>, os: nat -> View, order: seq<Pid>)
    requires IsInitial(init) && LegalRun(cfg, init, events) && cfg.autoActuate
    requires Legal(cfg, Run(cfg, init, events), PassEvent(os, order))
    ensures var s := Run(cfg, init, events);
            var t := Actuated(cfg, s, os, |Candidates(s.decisions)|);
            && TokensFit(t.exec) && PendingDescribesLog(t)
            && (forall i :: 0 <= i < |order| ==> order[i] in t.exec.pending)
            && (forall i, j :: 0 <= i < j < |order| ==> order[i] != order[j])
            && (forall pid :: pid in order
                  <==> pid in t.exec.pending && GraceExpired(t.exec.pending[pid], cfg.policy, os(GraceIndex(s)).now))
  {
    hide Run, LegalRun, Actuated, Candidates, GraceExpired;
    var s := Run(cfg, init, events);
    var t := Actuated(cfg, s, os, |Candidates(s.decisions)|);
    Discipline.DescribedAtEveryTurn(cfg, init, events, os, order, |Candidates(s.decisions)|);
    forall i | 0 <= i < |order|
      ensures order[i] in t.exec.pending
    {
      assert order[i] in order;
    }
    DescribedTokensFit(t);
  }

  lemma DescribedTokensFit(s: State)
    requires PendingDescribesLog(s)
    ensures TokensFit(s.exec)
  {
    hide Outstanding, IsOutstanding;
  }

  /** The partner of the sustain theorem, for SIGKILL. In any pass of any legal run exactly the entries past
      their grace period get a turn, one each; and at its turn an automated SIGKILL is delivered if and only
      if the entry is reachable then. Neither the policy nor the source of the SIGTERM is asked. */
  lemma EscalatedExactlyWhenReachable(cfg: Config, init: State, events: seq<Event>, os: nat -> View, order: seq<Pid>, pid: Pid)
    requires IsInitial(init) && LegalRun(cfg, init, events) && cfg.autoActuate
    requires Legal(cfg, Run(cfg, init, events), PassEvent(os, order))
    ensures var s := Run(cfg, init, events);
            var t := Actuated(cfg, s, os, |Candidates(s.decisions)|);
            var log := Pass(cfg, s, os, order).log;
            && (pid in order
                <==> pid in t.exec.pending && GraceExpired(t.exec.pending[pid], cfg.policy, os(GraceIndex(s)).now))
            && ((exists k :: |s.log| <= k < |log| && IsAutomated(log[k]) && IsKill(log[k], pid))
                <==> exists j :: 0 <= j < |order| && order[j] == pid && pid in t.exec.pending
                                 && Reachable(t.exec.pending[pid], pid, os(GraceIndex(s) + 1 + j)))
  {
    hide Run, LegalRun, Legal, Actuated, Candidates, GraceExpired, Escalate, Reachable, TokensFit, PendingDescribesLog,
         Pass, IsKill, ShowsTurns;
    AfterCandidates(cfg, init, events, os, order);
    var s := Run(cfg, init, events);
    var n := |Candidates(s.decisions)|;
    var t := Actuated(cfg, s, os, n);
    ActuatedLog(cfg, s, os, n);
    PassIs(cfg, s, os, order);
    EscalateLog(cfg, t, order, os, n + 2);
    KillsAmongEscalations(s.log, t.log, Pass(cfg, s, os, order).log, t.exec, order, os, n + 2, pid);
  }

  lemma PassIs(cfg: Config, s: State, os: nat -> View, order: seq<Pid>)
    requires cfg.autoActuate
    ensures var n := |Candidates(s.decisions)|;
            Pass(cfg, s, os, order) == Escalate(cfg, Actuated(cfg, s, os, n), order, os, n + 2)
  {
    hide Actuated, Escalate, Candidates;
  }

  lemma KillsAmongEscalations(old0: seq<Observation>, mid: seq<Observation>, log: seq<Observation>, e: Exec, order: seq<Pid>,
                              os: nat -> View, base: nat, pid: Pid)
    requires |old0| <= |mid| <= |log| && log[..|mid|] == mid && ShowsTurns(log, |mid|, e, order, os, base)
    requires forall k :: |old0| <= k < |mid| ==> IsAutomated(mid[k]) && mid[k].entry.action.AuditSigterm?
    ensures (exists k :: |old0| <= k < |log| && IsAutomated(log[k]) && IsKill(log[k], pid))
            <==> exists j :: 0 <= j < |order| && order[j] == pid && pid in e.pending && Reachable(e.pending[pid], pid, os(base + j))
  {
    hide Reachable;
    assert forall k :: |old0| <= k < |mid| ==> log[k] == mid[k] && !IsKill(log[k], pid);
    if k :| |old0| <= k < |log| && IsAutomated(log[k]) && IsKill(log[k], pid) {
      assert k >= |mid|;
      assert log[k] == log[|mid| + (k - |mid|)];
      assert order[k - |mid|] == pid;
    }
    if j :| 0 <= j < |order| && order[j] == pid && pid in e.pending && Reachable(e.pending[pid], pid, os(base + j)) {
      assert IsKill(log[|mid| + j], pid);
    }
  }

  lemma {:induction false} NoCandidates(decisions: seq<Decision>)
    requires NothingMarked(decisions)
    ensures Candidates(decisions) == []
  {
    if decisions != [] {
      assert decisions[|decisions| - 1] in decisions;
      NoCandidates(decisions[..|decisions| - 1]);
    }
  }

  // ---------------------------------------------------------------- a policy that condemns nobody

  ghost predicate HasAutomatedKill(log: seq<Observation>) {
    exists k :: 0 <= k < |log| && IsAutomated(log[k]) && log[k].hit.Some?
  }

  /** What a pass needs to kill when there are no candidates: an entry it visits, reachable at its turn. */
  ghost predicate FindsReachable(cfg: Config, s: State, e: Event) {
    && e.PassEvent? && cfg.autoActuate
    && exists j :: 0 <= j < |e.order| && e.order[j] in s.exec.pending
                   && Reachable(s.exec.pending[e.order[j]], e.order[j], e.os(2 + j))
  }

  ghost predicate SomePassFinds(cfg: Config, init: State, events: seq<Event>) {
    exists m :: 0 <= m < |events| && FindsReachable(cfg, Run(cfg, init, events[..m]), events[m])
  }

  lemma OpWithoutAutomation(cfg: Config, s: State, op: Op)
    requires (op.Term? || op.Kill?) ==> op.source.Manual?
    ensures HasAutomatedKill(Apply(cfg, s, op).log) <==> HasAutomatedKill(s.log)
  {
    var t := Apply(cfg, s, op);
    match op
    case Term(source, pid, name, category, fallback, reason, v) =>
      TermShows(cfg, s, op);
      hide Apply, TermObservation;
      OneMoreManual(s.log, t.log);
    case Kill(source, pid, name, category, v) =>
      KillShows(cfg, s, op);
      hide Apply, KillObservation;
      OneMoreManual(s.log, t.log);
    case Exit(_, _, _) =>
      ExitShows(cfg, s, op);
      hide Apply;
      OneMoreManual(s.log, t.log);
    case _ => QuietShows(cfg, s, op);
  }

  lemma OneMoreManual(log: seq<Observation>, longer: seq<Observation>)
    requires |longer| == |log| + 1 && longer[..|log|] == log && !IsAutomated(longer[|log|])
    ensures HasAutomatedKill(longer) <==> HasAutomatedKill(log)
  {
    assert forall k :: 0 <= k < |log| ==> longer[k] == log[k];
  }

  lemma {:induction false} OpsWithoutAutomation(cfg: Config, s: State, ops: seq<Op>)
    requires forall op <- ops :: (op.Term? || op.Kill?) ==> op.source.Manual?
    ensures HasAutomatedKill(After(cfg, s, ops).log) <==> HasAutomatedKill(s.log)
  {
    hide Apply, HasAutomatedKill;
    if ops != [] {
      var n := |ops| - 1;
      OpsWithoutAutomation(cfg, s, ops[..n]);
      OpWithoutAutomation(cfg, After(cfg, s, ops[..n]), ops[n]);
    }
  }

  /** Only a pass can kill on its own. */
  lemma OtherEventsKillNobody(cfg: Config, s: State, e: Event)
    requires Legal(cfg, s, e) && !e.PassEvent?
    ensures HasAutomatedKill(Step(cfg, s, e).log) <==> HasAutomatedKill(s.log)
  {
    hide HasAutomatedKill, Slay, Terminate, Drained, Assess;
    match e
    case TickEvent(input) =>
      var ops := TickOps(cfg, Anyone(), s, input);
      OpsWithoutAutomation(cfg, s, ops);
    case ManualKillEvent(pid, reason, v) =>
      if s.processes.Some? && pid in s.processes.value {
        var lc := s.processes.value[pid];
        OpWithoutAutomation(cfg, s, Term(Manual, pid, lc.name, lc.category, NotAi, reason, v));
      }
    case ForceKillEvent(pid, v) =>
      if s.processes.Some? {
        OpWithoutAutomation(cfg, s, Kill(Manual, pid, ForceIdentity(s, pid).0, ForceIdentity(s, pid).1, v));
      }
  }

  /** Under a policy that condemns nobody a run never has candidates. */
  lemma NobodyIsCandidate(cfg: Config, init: State, events: seq<Event>)
    requires IsInitial(init) && LegalRun(cfg, init, events) && CondemnsNobody(cfg.policy)
    ensures Candidates(Run(cfg, init, events).decisions) == []
  {
    hide Run, LegalRun, LegalOps, After;
    var ops := RunOps(cfg, Anyone(), init, events);
    GatedAfter(cfg, Anyone(), init, ops);
    NoCandidates(Run(cfg, init, events).decisions);
  }

  lemma PassWithoutCandidates(cfg: Config, init: State, events: seq<Event>, e: Event)
    requires IsInitial(init) && LegalRun(cfg, init, events) && CondemnsNobody(cfg.policy) && e.PassEvent?
    requires Legal(cfg, Run(cfg, init, events), e)
    ensures var s := Run(cfg, init, events);
            HasAutomatedKill(Step(cfg, s, e).log) <==> HasAutomatedKill(s.log) || FindsReachable(cfg, s, e)
  {
    hide Run, LegalRun, Legal, Escalate, Reachable, TokensFit, PendingDescribesLog, ShowsTurns, CondemnsNobody;
    var s := Run(cfg, init, events);
    if cfg.autoActuate {
      NobodyIsCandidate(cfg, init, events);
      AfterCandidates(cfg, init, events, e.os, e.order);
      EscalateLog(cfg, s, e.order, e.os, 2);
      TurnsThatKill(s.log, Escalate(cfg, s, e.order, e.os, 2).log, s.exec, e.order, e.os);
    }
  }

  lemma TurnsThatKill(log: seq<Observation>, longer: seq<Observation>, e: Exec, order: seq<Pid>, os: nat -> View)
    requires |longer| >= |log| && longer[..|log|] == log && ShowsTurns(longer, |log|, e, order, os, 2)
    ensures HasAutomatedKill(longer)
            <==> HasAutomatedKill(log)
                 || exists j :: 0 <= j < |order| && order[j] in e.pending && Reachable(e.pending[order[j]], order[j], os(2 + j))
  {
    hide Reachable;
    if k :| 0 <= k < |log| && IsAutomated(log[k]) && log[k].hit.Some? {
      assert longer[k] == log[k];
    }
    assert forall k :: 0 <= k < |log| ==> longer[k] == log[k];
    if k :| |log| <= k < |longer| && IsAutomated(longer[k]) && longer[k].hit.Some? {
      var j := k - |log|;
      assert IsEscalation(longer[|log| + j], order[j], Reachable(e.pending[order[j]], order[j], os(2 + j)));
    }
    if j :| 0 <= j < |order| && order[j] in e.pending && Reachable(e.pending[order[j]], order[j], os(2 + j)) {
      assert IsAutomated(longer[|log| + j]) && longer[|log| + j].hit.Some?;
    }
  }

  /** Exactly when a policy that condemns nobody still lets the governor kill: some pass of the run visits a
      pending entry, past its grace period therefore, that is reachable at its turn. */
  lemma {:induction false} AllowAllKillsIff(cfg: Config, init: State, events: seq<Event>)
    requires IsInitial(init) && LegalRun(cfg, init, events) && CondemnsNobody(cfg.policy)
    ensures HasAutomatedKill(Run(cfg, init, events).log) <==> SomePassFinds(cfg, init, events)
    decreases |events|
  {
    if events != [] {
      hide Step, Legal, HasAutomatedKill, FindsReachable, CondemnsNobody, SomePassFinds;
      var n := |events| - 1;
      LastEventFinds(cfg, init, events);
      AllowAllKillsIff(cfg, init, events[..n]);
      if events[n].PassEvent? {
        PassWithoutCandidates(cfg, init, events[..n], events[n]);
      } else {
        OtherEventsKillNobody(cfg, Run(cfg, init, events[..n]), events[n]);
        OnlyPassesReach(cfg, Run(cfg, init, events[..n]), events[n]);
      }
    } else {
      assert !SomePassFinds(cfg, init, events);
    }
  }

  lemma LastEventFinds(cfg: Config, init: State, events: seq<Event>)
    requires events != []
    ensures var n := |events| - 1;
            SomePassFinds(cfg, init, events)
            <==> SomePassFinds(cfg, init, events[..n]) || FindsReachable(cfg, Run(cfg, init, events[..n]), events[n])
  {
    hide FindsReachable, Run;
    var n := |events| - 1;
    forall m | 0 <= m < n
      ensures FindsReachable(cfg, Run(cfg, init, events[..m]), events[m])
              == FindsReachable(cfg, Run(cfg, init, events[..n][..m]), events[..n][m])
    {
      assert events[..n][..m] == events[..m];
    }
  }

  lemma OnlyPassesReach(cfg: Config, s: State, e: Event)
    requires !e.PassEvent?
    ensures !FindsReachable(cfg, s, e)
  {
  }

  // ---------------------------------------------------------------- the advisory rate limit

  /** The rate limit that a decision applies is called advisory, but a completed tick that finds the window
      full silences the whole pass after it: whatever has aged out of the window by then, whoever has been in
      breach long enough, no SIGTERM is attempted. */
  lemma FullWindowSilencesNextPass(cfg: Config, init: State, events: seq<Event>, input: TickInput, os: nat -> View, order: seq<Pid>)
    requires IsInitial(init) && LegalRun(cfg, init, events + [TickEvent(input)]) && input.sample.Some? && cfg.autoActuate
    requires var t := Run(cfg, init, events + [TickEvent(input)]);
             && 0 < cfg.policy.maxKills <= SigtermsSince(t.log, input.now - cfg.policy.Window())
             && Legal(cfg, t, PassEvent(os, order))
    ensures var t := Run(cfg, init, events + [TickEvent(input)]);
            var log := Pass(cfg, t, os, order).log;
            && |log| >= |t.log|
            && forall k :: |t.log| <= k < |log| ==> !(log[k].Attempt? && log[k].entry.action.AuditSigterm?)
  {
    hide Run, LegalRun, Legal, Tick, Escalate, SigtermsSince, TokensFit, PendingDescribesLog, Reachable, Pass;
    var all := events + [TickEvent(input)];
    var t := Run(cfg, init, all);
    Discipline.RunSnoc(cfg, init, events, TickEvent(input));
    StepIsTick(cfg, Run(cfg, init, events), input);
    RunBudgeted(cfg, init, all);
    FullAfterTick(cfg, Run(cfg, init, events), input);
    AfterCandidates(cfg, init, all, os, order);
    PassIs(cfg, t, os, order);
    EscalateLog(cfg, t, order, os, 2);
    var log := Pass(cfg, t, os, order).log;
    forall k | |t.log| <= k < |log|
      ensures !(log[k].Attempt? && log[k].entry.action.AuditSigterm?)
    {
      var j := k - |t.log|;
      assert IsEscalation(log[|t.log| + j], order[j], Reachable(t.exec.pending[order[j]], order[j], os(2 + j)));
    }
  }

  lemma StepIsTick(cfg: Config, s: State, input: TickInput)
    ensures Step(cfg, s, TickEvent(input)) == Tick(cfg, s, input)
  {
  }

  lemma FullAfterTick(cfg: Config, s: State, input: TickInput)
    requires input.sample.Some?
    requires var t := Tick(cfg, s, input);
             Budgeted(cfg, t) && 0 < cfg.policy.maxKills <= SigtermsSince(t.log, input.now - cfg.policy.Window())
    ensures Candidates(Tick(cfg, s, input).decisions) == []
  {
    var t := Tick(cfg, s, input);
    var b := Discipline.TickDecides(cfg, s, input);
    hide Evaluate, SigtermsSince, CountFrom, Candidates, Project, BreachingPids, Refresh, Drained;
    var cutoff := input.now - cfg.policy.Window();
    TrimTwice(Drained(cfg, Tune(s, input), input.sample.value, input.now, |input.sample.value.exits|).exec.recent, cutoff);
    assert Trim(t.exec.recent, cutoff) == t.exec.recent && t.clock == input.now;
    TrimCounts(t.exec.recent, cutoff, cutoff, t.clock);
    FullWindowMarksNobody(t.exec, cfg.policy, input.sample.value.processes, b);
  }

  lemma FullWindowMarksNobody(e: Exec, policy: Policy, processes: map<Pid, Lifecycle>, b: Breaches)
    requires Exceeded(e, policy)
    ensures Candidates(Evaluate(e, policy, processes, b)) == []
  {
    hide Sorting.Ascending;
    NoCandidates(Evaluate(e, policy, processes, b));
  }
}
