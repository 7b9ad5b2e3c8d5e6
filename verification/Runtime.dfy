/** The runtime object: the fields of `Runtime` that the kill path reads and writes, updated in
    place as src/runtime.rs updates them, each method proved equal to its step of Protocol. */
module Runtime {
  import opened Options
  import opened Text
  import opened Kernel
  import opened Rings
  import opened Model
  import opened Executor
  import opened ExitClassify
  import opened Protocol

  class GovernedRuntime {
    const config: Config
    const governor: GovernorExecutor
    var breachSince: map<Pid, Time>
    var decisions: seq<Decision>
    var annotated: seq<Row>
    var platform: Option<Platform>
    var processes: Option<map<Pid, Lifecycle>>
    var governorKilledPids: map<Pid, Bytes>
    var audit: seq<AuditEntry>
    var completed: seq<Summary>
    var recentExitAttribution: seq<Option<Attribution>>
    var thresholds: Thresholds
    var killSustainSecs: nat
    ghost var log: seq<Observation>
    ghost var ticks: seq<TickRecord>
    ghost var clock: Time

    ghost function Abs(): State
      reads this, governor
    {
      State(governor.Abs(), breachSince, decisions, annotated, platform, processes, governorKilledPids, audit,
            completed, recentExitAttribution, thresholds, killSustainSecs, log, ticks, clock)
    }

    ghost predicate Valid() {
      governor.policy == config.policy
    }

    constructor (config: Config, thresholds: Thresholds, killSustainSecs: nat)
      ensures Valid() && fresh(governor) && this.config == config
      ensures Abs() == Initial(thresholds, killSustainSecs)
    {
      this.config := config;
      this.governor := new GovernorExecutor(config.policy);
      this.thresholds, this.killSustainSecs := thresholds, killSustainSecs;
      breachSince, decisions, annotated, platform, processes := map[], [], [], None, None;
      governorKilledPids, audit, completed, recentExitAttribution := map[], [], [], [];
      log, ticks, clock := [], [], 0;
    }

    /** The bookkeeping every attempted signal gets: the tag when it was delivered, the audit ring. */
    method RecordAttempt(entry: AuditEntry, hit: Option<Instance>, now: Time)
      modifies this`governorKilledPids, this`audit, this`log, this`clock
      ensures Abs() == Record(config, old(Abs()), entry, hit, now)
    {
      if entry.success {
        governorKilledPids := governorKilledPids[entry.pid := Tag(entry)];
      }
      audit := KeepNewest(audit + [entry], config.auditHistory);
      log, clock := log + [Attempt(now, entry, hit)], now;
    }

    method ApplyPendingTunables(tunables: Option<Tunables>)
      modifies this`thresholds, this`killSustainSecs
      ensures tunables.None? ==> thresholds == old(thresholds) && killSustainSecs == old(killSustainSecs)
      ensures tunables.Some? ==> Tunables(thresholds, killSustainSecs) == tunables.value
    {
      if tunables.Some? {
        thresholds, killSustainSecs := tunables.value.thresholds, tunables.value.sustainSecs;
      }
    }

    /** Push the summary and, in lock-step, an empty attribution slot; drop the oldest of both. */
    method PushExit(summary: Summary)
      requires |completed| == |recentExitAttribution|
      modifies this`completed, this`recentExitAttribution
      ensures completed == PushBounded(old(completed), summary, config.completedHistory)
      ensures recentExitAttribution == PushBounded(old(recentExitAttribution), None, config.completedHistory)
    {
      completed := completed + [summary];
      recentExitAttribution := recentExitAttribution + [None];
      while |completed| > config.completedHistory
        invariant |completed| == |recentExitAttribution|
        invariant Suffix(completed, config.completedHistory)
                  == PushBounded(old(completed), summary, config.completedHistory)
        invariant Suffix(recentExitAttribution, config.completedHistory)
                  == PushBounded(old(recentExitAttribution), None, config.completedHistory)
      {
        completed := completed[1..];
        recentExitAttribution := recentExitAttribution[1..];
      }
    }

    /** Classify a categorised exit, consuming the governor's tag, and patch its attribution slot. */
    method AttributeExit(x: ExitReport, dmesg: seq<Bytes>) returns (reason: ExitReason)
      modifies this`recentExitAttribution, this`governorKilledPids
      ensures reason == Classify(x.summary.pid, x.summary.signal, x.summary.exitCode, Context(old(governorKilledPids), x, dmesg))
      ensures governorKilledPids == old(governorKilledPids) - {x.summary.pid}
      ensures recentExitAttribution == Patched(old(recentExitAttribution), Some(ToWire(reason)))
    {
      var pid := x.summary.pid;
      var lines := if x.summary.signal == Some(9) || x.summary.signal == None then dmesg else [];
      var tagged := pid in governorKilledPids;
      var tag := if tagged then Some(governorKilledPids[pid]) else None;
      governorKilledPids := governorKilledPids - {pid};
      reason := ClassifyExit(pid, x.summary.signal, x.summary.exitCode, ExitContext(lines, x.stderr, tagged, tag));
      var n := |recentExitAttribution|;
      if n > 0 {
        recentExitAttribution := recentExitAttribution[n - 1 := Some(ToWire(reason))];
      }
    }

    /** The body of the exit loop. */
    method DrainExit(x: ExitReport, dmesg: seq<Bytes>, now: Time)
      requires |completed| == |recentExitAttribution|
      modifies this`completed, this`recentExitAttribution, this`governorKilledPids, this`log, this`clock,
               governor`pending
      ensures Abs() == Drain(config, old(Abs()), x, dmesg, now)
      ensures |completed| == |recentExitAttribution|
    {
      hide Classify, ToWire, Suffix, Context;
      ghost var reason := ReasonOf(governorKilledPids, x, dmesg);
      PushExit(x.summary);
      PatchIsPush(old(recentExitAttribution), WireOf(reason), config.completedHistory);
      if x.summary.category.Some? {
        var r := AttributeExit(x, dmesg);
      }
      governor.ClearPending(x.summary.pid);
      log, clock := log + [Gone(now, x.summary, reason)], now;
    }

    /** One tick; `ok` is false when collecting the sample failed. */
    method TickOnce(input: TickInput) returns (ok: bool)
      requires Valid() && |completed| == |recentExitAttribution|
      modifies this, governor
      ensures Abs() == Tick(config, old(Abs()), input)
      ensures ok == input.sample.Some?
      ensures |completed| == |recentExitAttribution|
    {
      ApplyPendingTunables(input.tunables);
      clock := input.now;
      if input.sample.None? {
        return false;
      }
      var sample := input.sample.value;
      ghost var tuned := Abs();
      assert tuned == Tune(old(Abs()), input);
      for i := 0 to |sample.exits|
        invariant Abs() == Drained(config, tuned, sample, input.now, i)
        invariant |completed| == |recentExitAttribution|
      {
        DrainExit(sample.exits[i], sample.dmesg, input.now);
      }
      var breaches, breaching := ProjectBreaches();
      InstallSample(sample, breaches, breaching, input.now);
      return true;
    }

    /** The breach projection, still over the previous tick's rows and platform. */
    method ProjectBreaches() returns (b: Breaches, breaching: set<Pid>)
      ensures b == Project(Abs()) && breaching == BreachingPids(Abs())
    {
      var vram, ram, hot := {}, {}, false;
      if platform.Some? {
        vram := set r <- annotated | VramBreached(r, platform.value, thresholds) :: r.pid;
        ram := set r <- annotated | RamBreached(r, platform.value, thresholds) :: r.pid;
        hot := HostTooHot(platform.value, thresholds);
      }
      breaching := vram + ram;
      if hot {
        breaching := breaching + set r <- annotated | r.category != NotAi :: r.pid;
      }
      b := Breaches(vram, ram, hot);
    }

    method InstallSample(sample: Sample, b: Breaches, breaching: set<Pid>, now: Time)
      requires Valid()
      modifies this, governor
      ensures Abs() == Install(config, old(Abs()), sample, b, breaching, now)
    {
      hide Evaluate, Refresh, Trim;
      RefreshBreachSince(breaching, now);
      var judged := governor.EvaluateAll(sample.processes, b, now);
      PublishTables(sample, judged);
      ticks, clock := ticks + [TickRecord(now, breaching)], now;
    }

    method PublishTables(sample: Sample, judged: seq<Decision>)
      modifies this`decisions, this`annotated, this`platform, this`processes
      ensures Abs() == old(Abs()).(decisions := judged, annotated := sample.annotated,
                                   platform := Some(sample.platform), processes := Some(sample.processes))
    {
      annotated, decisions := sample.annotated, judged;
      platform, processes := Some(sample.platform), Some(sample.processes);
    }

    /** Insert the newcomers, then retain only what is still breaching. */
    method RefreshBreachSince(breaching: set<Pid>, now: Time)
      modifies this`breachSince
      ensures breachSince == Refresh(old(breachSince), breaching, now)
    {
      var todo := breaching;
      while todo != {}
        invariant todo <= breaching
        invariant breachSince.Keys == old(breachSince).Keys + (breaching - todo)
        invariant forall p <- breachSince :: breachSince[p] == if p in old(breachSince) then old(breachSince)[p] else now
        decreases todo
      {
        var pid :| pid in todo;
        if pid !in breachSince {
          breachSince := breachSince[pid := now];
        }
        todo := todo - {pid};
      }
      breachSince := map p <- breachSince | p in breaching :: breachSince[p];
    }

    /** The audit pass that the loop owner runs after every tick, failed ones included. */
    method RecordGovernorAudit(os: nat -> View) returns (ghost order: seq<Pid>)
      requires Valid()
      modifies this, governor
      ensures Abs() == Pass(config, old(Abs()), os, order)
      ensures config.autoActuate ==>
        Enumerates(order, Expired(Actuated(config, old(Abs()), os, |Candidates(old(decisions))|).exec,
                                  config.policy, os(GraceIndex(old(Abs()))).now))
    {
      order := [];
      if !config.autoActuate {
        return;
      }
      hide Actuate, Escalate, Expired;
      var candidates := CollectCandidates();
      ghost var before := Abs();
      for i := 0 to |candidates|
        invariant Abs() == Actuated(config, before, os, i)
      {
        ActuateCandidate(candidates[i], os(0).now, os(1 + i));
      }
      order := EscalatePending(os, 1 + |candidates|);
    }

    method CollectCandidates() returns (candidates: seq<Decision>)
      ensures candidates == Candidates(decisions)
    {
      candidates := [];
      for i := 0 to |decisions|
        invariant candidates == Candidates(decisions[..i])
      {
        assert decisions[..i + 1][..i] == decisions[..i];
        if decisions[i].action.SignalTermSent? {
          candidates := candidates + [decisions[i]];
        }
      }
      assert decisions[..|decisions|] == decisions;
    }

    /** The SIGKILL half of a pass: signal every entry past its grace period, then record each result. */
    method EscalatePending(os: nat -> View, base: nat) returns (ghost order: seq<Pid>)
      requires Valid()
      modifies this`governorKilledPids, this`audit, this`log, this`clock, governor`pending
      ensures Enumerates(order, Expired(old(Abs()).exec, config.policy, os(base).now))
      ensures Abs() == Escalate(config, old(Abs()), order, os, base + 1)
    {
      ghost var armed := Abs();
      var results;
      results, order := governor.ExecuteAfterGrace(os, base);
      RecordEscalations(results, order, os, base + 1, armed);
      EscalatedExec(config, armed, order, os, base + 1);
    }

    method RecordEscalations(results: seq<(Pid, Sigkill)>, ghost order: seq<Pid>, os: nat -> View, base: nat,
                             ghost armed: State)
      requires Escalated(governor.Abs(), results) == EscalateAll(armed.exec, order, os, base)
      requires Abs() == armed.(exec := governor.Abs())
      modifies this`governorKilledPids, this`audit, this`log, this`clock
      ensures Abs() == Escalate(config, armed, order, os, base).(exec := governor.Abs())
    {
      ghost var exec := governor.Abs();
      assert order[..0] == [];
      for i := 0 to |results|
        invariant Abs() == Escalate(config, armed, order[..i], os, base).(exec := exec)
      {
        EscalateStep(config, armed, order, os, base, i);
        ResultsPrefix(armed.exec, order, os, base, i);
        RecordEscalation(results[i].0, results[i].1, os(base + i).now);
      }
      assert order[..|order|] == order;
    }

    method RecordEscalation(pid: Pid, outcome: Sigkill, now: Time)
      modifies this`governorKilledPids, this`audit, this`log, this`clock
      ensures Abs() == Recorded(config, old(Abs()), pid, outcome, now)
    {
      var row := FindRow(annotated, pid);
      var name, category := Ascii("<unknown>"), None;
      if row.Some? {
        name, category := row.value.name, Some(row.value.category);
      } else if pid in governor.pending {
        name, category := governor.pending[pid].name, Some(governor.pending[pid].category);
      }
      RecordAttempt(KillEntry(Automated, pid, name, category, outcome), HitOf(outcome), now);
    }

    /** One turn of the SIGTERM loop. */
    method ActuateCandidate(c: Decision, start: Time, v: View)
      requires Valid()
      modifies this, governor
      ensures Abs() == Actuate(config, old(Abs()), c, start, v)
    {
      if c.pid !in breachSince || Elapsed(start, breachSince[c.pid]) < killSustainSecs * SECOND {
        return;
      }
      var row := FindRow(annotated, c.pid);
      if row.None? {
        return;
      }
      var blocked := governor.RateLimitWouldBlock(v.now);
      clock := v.now;
      if blocked {
        return;
      }
      var hit := governor.Sigterm(c.pid, row.value.name, row.value.category, v);
      RecordAttempt(AuditEntry(AuditSigterm, Automated, c.pid, row.value.name, Some(row.value.category), c.reason, hit.Some?),
                    hit, v.now);
    }

    method KillManually(pid: Pid, reason: Bytes, v: View) returns (outcome: Outcome)
      modifies this, governor
      ensures (Abs(), outcome) == ManualKill(config, old(Abs()), pid, reason, v)
    {
      if processes.None? {
        return NoSnapshot;
      }
      if pid !in processes.value {
        return NotFound;
      }
      var lc := processes.value[pid];
      var hit := governor.Sigterm(pid, lc.name, CategoryOr(lc.category, NotAi), v);
      RecordAttempt(AuditEntry(AuditSigterm, Manual, pid, lc.name, lc.category, reason, hit.Some?), hit, v.now);
      outcome := if hit.Some? then Signalled else Failed;
    }

    method ForceKillManually(pid: Pid, v: View) returns (outcome: Outcome)
      modifies this, governor
      ensures (Abs(), outcome) == ForceKill(config, old(Abs()), pid, v)
    {
      if processes.None? {
        return NoSnapshot;
      }
      var name, category := Ascii("<unknown>"), None;
      if pid in processes.value {
        name, category := processes.value[pid].name, processes.value[pid].category;
      } else if pid in governor.pending {
        name, category := governor.pending[pid].name, Some(governor.pending[pid].category);
      }
      var killed := governor.Sigkill(pid, v);
      RecordAttempt(KillEntry(Manual, pid, name, category, killed), HitOf(killed), v.now);
      outcome := match killed
        case SignalKillSent(_) => Signalled
        case PidReusedAborted => Refused
        case SignalError => Failed;
    }
  }

  // ------------------------------------------- kill all, then record all, is kill-and-record each

  /** Who is pending, and under what name and category. */
  predicate SameIdentities(e: Exec, f: Exec) {
    && e.pending.Keys == f.pending.Keys
    && forall pid <- e.pending ::
         e.pending[pid].name == f.pending[pid].name && e.pending[pid].category == f.pending[pid].category
  }

  lemma {:induction false} EscalationKeepsIdentities(e: Exec, order: seq<Pid>, os: nat -> View, base: nat)
    ensures SameIdentities(EscalateAll(e, order, os, base).exec, e)
  {
    if order != [] {
      var n := |order| - 1;
      EscalationKeepsIdentities(e, order[..n], os, base);
      SigkillKeepsIdentities(EscalateAll(e, order[..n], os, base).exec, order[n], os(base + n));
    }
  }

  lemma SigkillKeepsIdentities(e: Exec, pid: Pid, v: View)
    ensures SameIdentities(SendSigkill(e, pid, v).0, e)
  {
  }

  lemma {:induction false} EscalatedExec(cfg: Config, s: State, order: seq<Pid>, os: nat -> View, base: nat)
    ensures Escalate(cfg, s, order, os, base).exec == EscalateAll(s.exec, order, os, base).exec
    ensures Escalate(cfg, s, order, os, base).annotated == s.annotated
  {
    if order != [] {
      EscalatedExec(cfg, s, order[..|order| - 1], os, base);
    }
  }

  lemma {:induction false} ResultsPrefix(e: Exec, order: seq<Pid>, os: nat -> View, base: nat, n: nat)
    requires n < |order|
    ensures EscalateAll(e, order, os, base).results[n]
            == (order[n], SendSigkill(EscalateAll(e, order[..n], os, base).exec, order[n], os(base + n)).1)
    decreases |order|
  {
    var m := |order| - 1;
    if n < m {
      ResultsPrefix(e, order[..m], os, base, n);
      assert order[..m][..n] == order[..n];
    }
  }

  /** An automated SIGKILL's bookkeeping on its own, with the identity looked up afterwards. */
  function Recorded(cfg: Config, s: State, pid: Pid, outcome: Sigkill, now: Time): State {
    Record(cfg, s, KillEntry(Automated, pid, Identity(s, pid).0, Identity(s, pid).1, outcome), HitOf(outcome), now)
  }

  lemma RecordIgnoresExec(cfg: Config, s: State, e: AuditEntry, hit: Option<Instance>, now: Time, a: Exec, b: Exec)
    ensures Record(cfg, s.(exec := a), e, hit, now).(exec := b) == Record(cfg, s.(exec := b), e, hit, now)
  {
  }

  lemma EscalateOneWithLaterExec(cfg: Config, s: State, pid: Pid, v: View, e: Exec)
    requires SameIdentities(e, s.exec)
    ensures EscalateOne(cfg, s, pid, v).(exec := e)
            == Recorded(cfg, s.(exec := e), pid, SendSigkill(s.exec, pid, v).1, v.now)
  {
    IdentityWithLaterExec(s, e, pid);
    var (name, category) := Identity(s, pid);
    var (exec, outcome) := SendSigkill(s.exec, pid, v);
    RecordIgnoresExec(cfg, s, KillEntry(Automated, pid, name, category, outcome), HitOf(outcome), v.now, exec, e);
  }

  lemma IdentityWithLaterExec(s: State, e: Exec, pid: Pid)
    requires SameIdentities(e, s.exec)
    ensures Identity(s.(exec := e), pid) == Identity(s, pid)
  {
  }

  lemma EscalateStep(cfg: Config, s: State, order: seq<Pid>, os: nat -> View, base: nat, n: nat)
    requires n < |order|
    ensures var all := EscalateAll(s.exec, order, os, base);
            Escalate(cfg, s, order[..n + 1], os, base).(exec := all.exec)
            == Recorded(cfg, Escalate(cfg, s, order[..n], os, base).(exec := all.exec),
                        order[n], all.results[n].1, os(base + n).now)
  {
    var all := EscalateAll(s.exec, order, os, base);
    var t := Escalate(cfg, s, order[..n], os, base);
    EscalateUnfolds(cfg, s, order, os, base, n);
    EscalatedExec(cfg, s, order[..n], os, base);
    ResultsPrefix(s.exec, order, os, base, n);
    EscalationKeepsIdentities(s.exec, order[..n], os, base);
    EscalationKeepsIdentities(s.exec, order, os, base);
    EscalateOneWithLaterExec(cfg, t, order[n], os(base + n), all.exec);
  }

  lemma EscalateUnfolds(cfg: Config, s: State, order: seq<Pid>, os: nat -> View, base: nat, n: nat)
    requires n < |order|
    ensures Escalate(cfg, s, order[..n + 1], os, base)
            == EscalateOne(cfg, Escalate(cfg, s, order[..n], os, base), order[n], os(base + n))
  {
    hide EscalateOne;
    assert order[..n + 1][..n] == order[..n];
  }

  /** What `back_mut` patching does to the attribution ring. */
  function Patched(slots: seq<Option<Attribution>>, a: Option<Attribution>): seq<Option<Attribution>> {
    if slots == [] then [] else slots[|slots| - 1 := a]
  }

  lemma PatchIsPush(slots: seq<Option<Attribution>>, a: Option<Attribution>, cap: nat)
    ensures Patched(PushBounded(slots, None, cap), a) == PushBounded(slots, a, cap)
  {
  }
}
