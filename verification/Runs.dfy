/** Runs of the machine: any sequence of ticks, audit passes, manual kills and force-kills, against
    any kernel. Every event is broken into atomic steps, so that a run invariant only has to be
    shown for one step. */
module Runs {
  import opened Options
  import opened Text
  import opened Kernel
  import opened Rings
  import opened Model
  import opened Executor
  import opened Protocol

  datatype Event =
    | TickEvent(input: TickInput)
    | PassEvent(os: nat -> View, order: seq<Pid>)
    | ManualKillEvent(target: Pid, reason: Bytes, v: View)
    | ForceKillEvent(target: Pid, v: View)

  function Step(cfg: Config, s: State, e: Event): State {
    match e
    case TickEvent(input) => Tick(cfg, s, input)
    case PassEvent(os, order) => Pass(cfg, s, os, order)
    case ManualKillEvent(pid, reason, v) => ManualKill(cfg, s, pid, reason, v).0
    case ForceKillEvent(pid, v) => ForceKill(cfg, s, pid, v).0
  }

  /** Clocks never run backwards, and a pass visits exactly the expired entries, in some order. */
  ghost predicate Legal(cfg: Config, s: State, e: Event) {
    match e
    case TickEvent(input) => s.clock <= input.now
    case PassEvent(os, order) =>
      && s.clock <= os(0).now
      && (forall i: nat, j: nat :: i <= j ==> os(i).now <= os(j).now)
      && (cfg.autoActuate ==>
            Enumerates(order, Expired(Actuated(cfg, s, os, |Candidates(s.decisions)|).exec,
                                      cfg.policy, os(GraceIndex(s)).now)))
    case ManualKillEvent(_, _, v) => s.clock <= v.now
    case ForceKillEvent(_, v) => s.clock <= v.now
  }

  function Run(cfg: Config, init: State, events: seq<Event>): State {
    if events == [] then init
    else Step(cfg, Run(cfg, init, events[..|events| - 1]), events[|events| - 1])
  }

  ghost predicate LegalRun(cfg: Config, init: State, events: seq<Event>) {
    events == [] ||
    var n := |events| - 1;
    LegalRun(cfg, init, events[..n]) && Legal(cfg, Run(cfg, init, events[..n]), events[n])
  }

  ghost predicate IsInitial(s: State) {
    s == Initial(s.thresholds, s.sustainSecs)
  }

  /** Every process the kernel ever shows to a signalling call belongs to `born`. */
  ghost predicate ShowsOnly(born: iset<Instance>, e: Event) {
    match e
    case TickEvent(_) => true
    case PassEvent(os, _) => forall i: nat, p :: p in os(i).live ==> os(i).live[p] in born
    case ManualKillEvent(_, _, v) => forall p <- v.live :: v.live[p] in born
    case ForceKillEvent(_, v) => forall p <- v.live :: v.live[p] in born
  }

  predicate MayLive(i: Instance) {
    true
  }

  /** No restriction on the processes a run may meet. */
  ghost function Anyone(): iset<Instance> {
    iset i: Instance | MayLive(i)
  }

  // ---------------------------------------------------------------- atomic steps

  datatype Op =
    | Advance(now: Time, tunables: Option<Tunables>)
    | Hold(now: Time)
    | Term(source: KillSource, pid: Pid, name: Bytes, category: Option<AICategory>, fallback: AICategory,
           reason: Bytes, v: View)
    | Kill(source: KillSource, pid: Pid, name: Bytes, category: Option<AICategory>, v: View)
    | Exit(x: ExitReport, dmesg: seq<Bytes>, now: Time)
    | Judge(sample: Sample, now: Time)

  function At(op: Op): Time {
    match op
    case Term(_, _, _, _, _, _, v) => v.now
    case Kill(_, _, _, _, v) => v.now
    case _ => op.now
  }

  function HeldAt(cfg: Config, s: State, now: Time): State {
    s.(exec := Trimmed(s.exec, cfg.policy, now), clock := now)
  }

  function Apply(cfg: Config, s: State, op: Op): State {
    match op
    case Advance(now, tunables) => Tune(s, TickInput(now, tunables, None))
    case Hold(now) => HeldAt(cfg, s, now)
    case Term(source, pid, name, category, fallback, reason, v) =>
      Terminate(cfg, s, source, pid, name, category, fallback, reason, v)
    case Kill(source, pid, name, category, v) => Slay(cfg, s, source, pid, name, category, v)
    case Exit(x, dmesg, now) => Drain(cfg, s, x, dmesg, now)
    case Judge(sample, now) => Assess(cfg, s, sample, now)
  }

  /** What the code has checked by the time it takes the step. */
  ghost predicate Allowed(cfg: Config, s: State, op: Op) {
    && s.clock <= At(op)
    && (op.Term? && op.source.Automated? ==>
          && cfg.autoActuate
          && s.exec == Trimmed(s.exec, cfg.policy, op.v.now)
          && !Exceeded(s.exec, cfg.policy)
          && Sustained(s, op.pid, op.v.now)
          && (exists d <- s.decisions :: d.action.SignalTermSent? && d.pid == op.pid && d.reason == op.reason))
    && (op.Kill? && op.source.Automated? ==>
          && cfg.autoActuate
          && op.pid in s.exec.pending
          && GraceExpired(s.exec.pending[op.pid], cfg.policy, op.v.now))
  }

  ghost predicate OpShowsOnly(born: iset<Instance>, op: Op) {
    (op.Term? || op.Kill?) ==> forall p <- op.v.live :: op.v.live[p] in born
  }

  function After(cfg: Config, s: State, ops: seq<Op>): State {
    if ops == [] then s else Apply(cfg, After(cfg, s, ops[..|ops| - 1]), ops[|ops| - 1])
  }

  ghost predicate LegalOps(cfg: Config, born: iset<Instance>, s: State, ops: seq<Op>) {
    ops == [] ||
    var n := |ops| - 1;
    && LegalOps(cfg, born, s, ops[..n])
    && Allowed(cfg, After(cfg, s, ops[..n]), ops[n])
    && OpShowsOnly(born, ops[n])
  }

  lemma {:induction false} Concat(cfg: Config, born: iset<Instance>, s: State, a: seq<Op>, b: seq<Op>)
    requires LegalOps(cfg, born, s, a) && LegalOps(cfg, born, After(cfg, s, a), b)
    ensures After(cfg, s, a + b) == After(cfg, After(cfg, s, a), b)
    ensures LegalOps(cfg, born, s, a + b)
    decreases |b|
  {
    hide Allowed, Apply;
    if b == [] {
      assert a + b == a;
    } else {
      var n := |b| - 1;
      Concat(cfg, born, s, a, b[..n]);
      assert (a + b)[..|a + b| - 1] == a + b[..n];
    }
  }

  lemma One(cfg: Config, born: iset<Instance>, s: State, op: Op)
    requires Allowed(cfg, s, op) && OpShowsOnly(born, op)
    ensures LegalOps(cfg, born, s, [op]) && After(cfg, s, [op]) == Apply(cfg, s, op)
  {
    hide Allowed, Apply;
    assert [op][..0] == [];
    assert LegalOps(cfg, born, s, []);
  }

  /** What no part of a pass touches. */
  predicate SamePlan(s: State, t: State) {
    && s.decisions == t.decisions && s.breachSince == t.breachSince && s.annotated == t.annotated
    && s.sustainSecs == t.sustainSecs && s.ticks == t.ticks && s.processes == t.processes
  }

  lemma ActuateOps(cfg: Config, born: iset<Instance>, s: State, c: Decision, start: Time, v: View) returns (ops: seq<Op>)
    requires cfg.autoActuate && c in s.decisions && c.action.SignalTermSent?
    requires s.clock <= v.now && start <= v.now
    requires forall p <- v.live :: v.live[p] in born
    ensures LegalOps(cfg, born, s, ops) && After(cfg, s, ops) == Actuate(cfg, s, c, start, v)
    ensures After(cfg, s, ops).clock <= v.now && SamePlan(s, After(cfg, s, ops))
  {
    if !Sustained(s, c.pid, start) || FindRow(s.annotated, c.pid).None? {
      ops := [];
    } else {
      var row := FindRow(s.annotated, c.pid).value;
      var t := HeldAt(cfg, s, v.now);
      One(cfg, born, s, Hold(v.now));
      if Exceeded(t.exec, cfg.policy) {
        ops := [Hold(v.now)];
      } else {
        TrimTwice(s.exec.recent, v.now - cfg.policy.Window());
        var op := Term(Automated, c.pid, row.name, Some(row.category), Inference, c.reason, v);
        One(cfg, born, t, op);
        Concat(cfg, born, s, [Hold(v.now)], [op]);
        ops := [Hold(v.now)] + [op];
      }
    }
  }

  lemma {:induction false} TrimTwice(recent: seq<Time>, cutoff: Time)
    ensures Trim(Trim(recent, cutoff), cutoff) == Trim(recent, cutoff)
  {
    if recent != [] && recent[0] < cutoff {
      TrimTwice(recent[1..], cutoff);
    }
  }

  lemma {:induction false} CandidatesAreDecisions(decisions: seq<Decision>)
    ensures forall c <- Candidates(decisions) :: c in decisions && c.action.SignalTermSent?
  {
    if decisions != [] {
      CandidatesAreDecisions(decisions[..|decisions| - 1]);
    }
  }

  lemma {:induction false} ActuatedOps(cfg: Config, born: iset<Instance>, s: State, os: nat -> View, n: nat)
    returns (ops: seq<Op>)
    requires cfg.autoActuate && n <= |Candidates(s.decisions)|
    requires s.clock <= os(0).now && forall i: nat, j: nat :: i <= j ==> os(i).now <= os(j).now
    requires forall i: nat, p :: p in os(i).live ==> os(i).live[p] in born
    ensures LegalOps(cfg, born, s, ops) && After(cfg, s, ops) == Actuated(cfg, s, os, n)
    ensures Actuated(cfg, s, os, n).clock <= os(n).now && SamePlan(s, Actuated(cfg, s, os, n))
  {
    if n == 0 {
      ops := [];
    } else {
      var before := ActuatedOps(cfg, born, s, os, n - 1);
      var t := Actuated(cfg, s, os, n - 1);
      CandidatesAreDecisions(s.decisions);
      var last := ActuateOps(cfg, born, t, Candidates(s.decisions)[n - 1], os(0).now, os(n));
      Concat(cfg, born, s, before, last);
      ops := before + last;
    }
  }

  /** Escalating one entry leaves the others as they were. */
  lemma SlayTouchesOneEntry(cfg: Config, s: State, pid: Pid, v: View)
    ensures var t := EscalateOne(cfg, s, pid, v);
            && t.exec.pending.Keys == s.exec.pending.Keys && t.clock == v.now
            && forall p <- s.exec.pending :: p != pid ==> t.exec.pending[p] == s.exec.pending[p]
  {
    hide Identity, KillEntry, PushBounded;
  }

  lemma {:induction false} EscalateTouchesItsOrder(cfg: Config, s: State, order: seq<Pid>, os: nat -> View, base: nat)
    ensures var t := Escalate(cfg, s, order, os, base);
            && t.exec.pending.Keys == s.exec.pending.Keys
            && (order == [] ==> t == s) && (order != [] ==> t.clock == os(base + |order| - 1).now)
            && forall p <- s.exec.pending :: p !in order ==> t.exec.pending[p] == s.exec.pending[p]
    decreases |order|
  {
    hide EscalateOne;
    if order != [] {
      var n := |order| - 1;
      EscalateTouchesItsOrder(cfg, s, order[..n], os, base);
      SlayTouchesOneEntry(cfg, Escalate(cfg, s, order[..n], os, base), order[n], os(base + n));
    }
  }

  /** Every listed entry is past its grace period, and none is listed twice. */
  ghost predicate AllExpired(cfg: Config, e: Exec, order: seq<Pid>, now: Time) {
    && (forall i :: 0 <= i < |order| ==> order[i] in e.pending && GraceExpired(e.pending[order[i]], cfg.policy, now))
    && (forall i, j :: 0 <= i < j < |order| ==> order[i] != order[j])
  }

  lemma {:induction false} EscalateOps(cfg: Config, born: iset<Instance>, s: State, order: seq<Pid>, os: nat -> View, base: nat)
    returns (ops: seq<Op>)
    requires cfg.autoActuate && base > 0 && AllExpired(cfg, s.exec, order, os(base - 1).now)
    requires s.clock <= os(base - 1).now && forall i: nat, j: nat :: i <= j ==> os(i).now <= os(j).now
    requires forall i: nat, p :: p in os(i).live ==> os(i).live[p] in born
    ensures LegalOps(cfg, born, s, ops) && After(cfg, s, ops) == Escalate(cfg, s, order, os, base)
    ensures forall op <- ops :: op.Kill?
    decreases |order|
  {
    hide EscalateOne, AllExpired, GraceExpired;
    if order == [] {
      ops := [];
    } else {
      var n := |order| - 1;
      var t := Escalate(cfg, s, order[..n], os, base);
      NextIsExpired(cfg, s, order, os, base);
      var before := EscalateOps(cfg, born, s, order[..n], os, base);
      var last := EscalateOneOps(cfg, born, t, order[n], os(base + n));
      Concat(cfg, born, s, before, last);
      ops := before + last;
    }
  }

  /** When its turn comes, the last listed entry is still as it was when grace was checked. */
  lemma NextIsExpired(cfg: Config, s: State, order: seq<Pid>, os: nat -> View, base: nat)
    requires order != [] && base > 0 && AllExpired(cfg, s.exec, order, os(base - 1).now)
    requires s.clock <= os(base - 1).now && forall i: nat, j: nat :: i <= j ==> os(i).now <= os(j).now
    ensures var n := |order| - 1;
            var t := Escalate(cfg, s, order[..n], os, base);
            && AllExpired(cfg, s.exec, order[..n], os(base - 1).now)
            && t.clock <= os(base + n).now
            && order[n] in t.exec.pending && GraceExpired(t.exec.pending[order[n]], cfg.policy, os(base + n).now)
  {
    hide Escalate, GraceExpired;
    var n := |order| - 1;
    EscalateTouchesItsOrder(cfg, s, order[..n], os, base);
    GraceStaysExpired(s.exec.pending[order[n]], cfg.policy, os(base - 1).now, os(base + n).now);
    assert os(base - 1).now <= os(base + n).now;
    assert n > 0 ==> os(base + n - 1).now <= os(base + n).now;
    assert order[n] !in order[..n];
  }

  lemma GraceStaysExpired(p: Pending, policy: Policy, at: Time, later: Time)
    ensures GraceExpired(p, policy, at) && at <= later ==> GraceExpired(p, policy, later)
  {
  }

  lemma EscalateOneOps(cfg: Config, born: iset<Instance>, s: State, pid: Pid, v: View) returns (ops: seq<Op>)
    requires cfg.autoActuate && s.clock <= v.now && forall p <- v.live :: v.live[p] in born
    requires pid in s.exec.pending && GraceExpired(s.exec.pending[pid], cfg.policy, v.now)
    ensures LegalOps(cfg, born, s, ops) && After(cfg, s, ops) == EscalateOne(cfg, s, pid, v)
    ensures forall op <- ops :: op.Kill?
  {
    hide Slay, Identity;
    var op := Kill(Automated, pid, Identity(s, pid).0, Identity(s, pid).1, v);
    One(cfg, born, s, op);
    ops := [op];
  }

  lemma {:induction false} DrainedOps(cfg: Config, born: iset<Instance>, s: State, sample: Sample, now: Time, n: nat)
    returns (ops: seq<Op>)
    requires n <= |sample.exits| && s.clock <= now
    ensures var t := Drained(cfg, s, sample, now, n);
            LegalOps(cfg, born, s, ops) && After(cfg, s, ops) == t && t.clock <= now
    ensures forall op <- ops :: op.Exit?
  {
    if n == 0 {
      ops := [];
    } else {
      var before := DrainedOps(cfg, born, s, sample, now, n - 1);
      var op := Exit(sample.exits[n - 1], sample.dmesg, now);
      One(cfg, born, Drained(cfg, s, sample, now, n - 1), op);
      Concat(cfg, born, s, before, [op]);
      ops := before + [op];
    }
  }

  lemma TickOps(cfg: Config, born: iset<Instance>, s: State, input: TickInput) returns (ops: seq<Op>)
    requires s.clock <= input.now
    ensures LegalOps(cfg, born, s, ops) && After(cfg, s, ops) == Tick(cfg, s, input)
    ensures forall op <- ops :: !op.Term? && !op.Kill?
  {
    hide Assess, Drain, Drained;
    var op := Advance(input.now, input.tunables);
    One(cfg, born, s, op);
    ops := [op];
    if input.sample.Some? {
      var t := Tune(s, input);
      var sample := input.sample.value;
      var drains := DrainedOps(cfg, born, t, sample, input.now, |sample.exits|);
      Concat(cfg, born, s, ops, drains);
      var judge := Judge(sample, input.now);
      One(cfg, born, Drained(cfg, t, sample, input.now, |sample.exits|), judge);
      Concat(cfg, born, s, ops + drains, [judge]);
      ops := ops + drains + [judge];
    }
  }

  lemma PassOps(cfg: Config, born: iset<Instance>, s: State, os: nat -> View, order: seq<Pid>) returns (ops: seq<Op>)
    requires Legal(cfg, s, PassEvent(os, order)) && ShowsOnly(born, PassEvent(os, order))
    ensures LegalOps(cfg, born, s, ops) && After(cfg, s, ops) == Pass(cfg, s, os, order)
  {
    if cfg.autoActuate {
      var n := |Candidates(s.decisions)|;
      var terms := ActuatedOps(cfg, born, s, os, n);
      assert AllExpired(cfg, Actuated(cfg, s, os, n).exec, order, os(n + 1).now) by {
        assert forall i :: 0 <= i < |order| ==> order[i] in order;
      }
      var kills := EscalateOps(cfg, born, Actuated(cfg, s, os, n), order, os, n + 2);
      Concat(cfg, born, s, terms, kills);
      ops := terms + kills;
    } else {
      ops := [];
    }
  }

  lemma EventOps(cfg: Config, born: iset<Instance>, s: State, e: Event) returns (ops: seq<Op>)
    requires Legal(cfg, s, e) && ShowsOnly(born, e)
    ensures LegalOps(cfg, born, s, ops) && After(cfg, s, ops) == Step(cfg, s, e)
  {
    match e
    case TickEvent(input) => ops := TickOps(cfg, born, s, input);
    case PassEvent(os, order) => ops := PassOps(cfg, born, s, os, order);
    case ManualKillEvent(pid, reason, v) =>
      if s.processes.None? || pid !in s.processes.value {
        ops := [];
      } else {
        var lc := s.processes.value[pid];
        ops := [Term(Manual, pid, lc.name, lc.category, NotAi, reason, v)];
        One(cfg, born, s, ops[0]);
      }
    case ForceKillEvent(pid, v) =>
      if s.processes.None? {
        ops := [];
      } else {
        ops := [Kill(Manual, pid, ForceIdentity(s, pid).0, ForceIdentity(s, pid).1, v)];
        One(cfg, born, s, ops[0]);
      }
  }

  /** Every legal run is a sequence of allowed atomic steps. */
  lemma {:induction false} RunOps(cfg: Config, born: iset<Instance>, init: State, events: seq<Event>) returns (ops: seq<Op>)
    requires LegalRun(cfg, init, events) && forall e <- events :: ShowsOnly(born, e)
    ensures LegalOps(cfg, born, init, ops) && After(cfg, init, ops) == Run(cfg, init, events)
    decreases |events|
  {
    if events == [] {
      ops := [];
    } else {
      var n := |events| - 1;
      var before := RunOps(cfg, born, init, events[..n]);
      var last := EventOps(cfg, born, Run(cfg, init, events[..n]), events[n]);
      Concat(cfg, born, init, before, last);
      ops := before + last;
    }
  }

  // ---------------------------------------------------------------- what a step shows and stores

  /** The observation a SIGKILL attempt adds. */
  function KillObservation(s: State, source: KillSource, pid: Pid, name: Bytes, category: Option<AICategory>, v: View)
    : (o: Observation)
    ensures o.Attempt? && o.entry.pid == pid && o.entry.source == source && o.time == v.now
    ensures o.hit == HitOf(SendSigkill(s.exec, pid, v).1)
    ensures o.entry.success == o.hit.Some? && !o.entry.action.AuditSigterm?
    ensures o.entry.action.AuditSigkill? <== o.hit.Some?
  {
    var outcome := SendSigkill(s.exec, pid, v).1;
    Attempt(v.now, KillEntry(source, pid, name, category, outcome), HitOf(outcome))
  }

  lemma KillShows(cfg: Config, s: State, op: Op)
    requires op.Kill?
    ensures var t := Apply(cfg, s, op);
            && t.log == s.log + [KillObservation(s, op.source, op.pid, op.name, op.category, op.v)]
            && t.exec == SendSigkill(s.exec, op.pid, op.v).0
            && t.clock == op.v.now && t.ticks == s.ticks && SamePlan(s, t)
  {
    hide KillEntry, PushBounded, Tag;
  }

  /** What a SIGKILL attempt does to the pending entries. */
  lemma SigkillStampsOnly(e: Exec, pid: Pid, v: View)
    ensures var (f, outcome) := SendSigkill(e, pid, v);
            && f.recent == e.recent && f.pending.Keys == e.pending.Keys
            && (forall p <- e.pending :: p != pid ==> f.pending[p] == e.pending[p])
            && (pid in e.pending ==>
                  f.pending[pid] == e.pending[pid] || f.pending[pid] == e.pending[pid].(sigkillTime := Some(v.now)))
            && (outcome.SignalKillSent? ==> pid in e.pending && f.pending[pid].sigkillTime.Some?)
  {
  }

  function TermObservation(source: KillSource, pid: Pid, name: Bytes, category: Option<AICategory>, reason: Bytes, v: View)
    : (o: Observation)
    ensures o.Attempt? && o.entry.pid == pid && o.entry.source == source && o.entry.reason == reason && o.time == v.now
    ensures o.entry.action.AuditSigterm? && o.entry.success == o.hit.Some?
    ensures o.hit.Some? <==> KillByPid(v, pid).Delivered?
    ensures o.hit.Some? ==> o.hit.value == v.live[pid] && o.hit.value.pid == pid
  {
    var hit := match KillByPid(v, pid) case Delivered(to) => Some(to) case _ => None;
    Attempt(v.now, AuditEntry(AuditSigterm, source, pid, name, category, reason, hit.Some?), hit)
  }

  lemma TermShows(cfg: Config, s: State, op: Op)
    requires op.Term?
    ensures var t := Apply(cfg, s, op);
            var o := TermObservation(op.source, op.pid, op.name, op.category, op.reason, op.v);
            && t.log == s.log + [o]
            && t.clock == op.v.now && t.ticks == s.ticks && SamePlan(s, t)
            && (o.hit.None? ==> t.exec == s.exec)
            && (o.hit.Some? ==>
                  && t.exec.recent == s.exec.recent + [op.v.now]
                  && t.exec.pending == s.exec.pending[op.pid :=
                       Pending(op.name, CategoryOr(op.category, op.fallback), op.v.now, None,
                               PidfdOpen(op.v, op.pid), ReadStarttime(op.v, op.pid))])
  {
    hide PushBounded, Tag;
  }

  lemma ExitShows(cfg: Config, s: State, op: Op)
    requires op.Exit?
    ensures var t := Apply(cfg, s, op);
            && t.log == s.log + [Gone(op.now, op.x.summary, ReasonOf(s.killed, op.x, op.dmesg))]
            && t.exec == s.exec.(pending := s.exec.pending - {op.x.summary.pid})
            && t.clock == op.now && t.ticks == s.ticks && SamePlan(s, t)
  {
    hide PushBounded, ReasonOf, WireOf;
  }

  /** The remaining steps signal nobody and drain nothing. */
  lemma QuietShows(cfg: Config, s: State, op: Op)
    requires op.Advance? || op.Hold? || op.Judge?
    ensures var t := Apply(cfg, s, op);
            && t.log == s.log && t.exec.pending == s.exec.pending && t.killed == s.killed && t.clock == At(op)
            && t.audit == s.audit && t.completed == s.completed && t.attribution == s.attribution
            && (!op.Judge? ==> t.ticks == s.ticks && t.breachSince == s.breachSince)
            && (op.Advance? ==> t.exec == s.exec)
            && (!op.Advance? ==> t.exec == Trimmed(s.exec, cfg.policy, At(op)))
  {
    hide Project, BreachingPids, Evaluate, Refresh, Trim;
  }
}
