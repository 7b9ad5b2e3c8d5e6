/** When one PID can and cannot get a second automated SIGTERM. The decisions of a completed tick
    never name a PID that is already pending; decisions left over from an earlier tick may. */
module Discipline {
  import opened Options
  import opened Text
  import opened Kernel
  import opened Rings
  import opened Model
  import Sorting
  import opened Executor
  import opened Protocol
  import opened Runs
  import opened SigkillSafety
  import opened RateLimit
  import opened Sustain

  /** The decisions in force were made since the last pass and the last manual kill. Failed ticks and
      force-kills in between do no harm. */
  predicate Fresh(events: seq<Event>) {
    events == [] ||
    var n := |events| - 1;
    match events[n]
    case TickEvent(input) => input.sample.Some? || Fresh(events[..n])
    case ForceKillEvent(_, _) => Fresh(events[..n])
    case _ => false
  }

  /** Every pass finds fresh decisions; in the headless loop, every pass follows a tick that worked. */
  predicate Disciplined(events: seq<Event>) {
    events == [] ||
    var n := |events| - 1;
    Disciplined(events[..n]) && (events[n].PassEvent? ==> Fresh(events[..n]))
  }

  predicate IsAutomatedTerm(o: Observation) {
    o.Attempt? && o.hit.Some? && o.entry.action.AuditSigterm? && o.entry.source.Automated?
  }

  /** Every automated SIGTERM went to a PID with no SIGTERM outstanding. */
  ghost predicate NoneRepeated(log: seq<Observation>) {
    forall k :: 0 <= k < |log| && IsAutomatedTerm(log[k]) ==> Outstanding(log[..k], log[k].entry.pid).None?
  }

  /** The candidates are distinct and none is pending. */
  ghost predicate PlanFresh(s: State) {
    var c := Candidates(s.decisions);
    && (forall i :: 0 <= i < |c| ==> c[i].pid !in s.exec.pending)
    && (forall i, j :: 0 <= i < j < |c| ==> c[i].pid != c[j].pid)
  }

  // ---------------------------------------------------------------- fresh plans

  predicate AscendingPids(decisions: seq<Decision>) {
    forall i, j :: 0 <= i < j < |decisions| ==> decisions[i].pid < decisions[j].pid
  }

  lemma {:induction false} CandidatesAscend(decisions: seq<Decision>)
    requires AscendingPids(decisions)
    ensures AscendingPids(Candidates(decisions))
    ensures forall d <- Candidates(decisions) :: d in decisions && d.action.SignalTermSent?
  {
    CandidatesAreDecisions(decisions);
    if decisions != [] {
      var n := |decisions| - 1;
      CandidatesAscend(decisions[..n]);
      CandidatesAreDecisions(decisions[..n]);
      AscendPush(Candidates(decisions[..n]), decisions);
    }
  }

  /** Something picked from all but the last stays below the last. */
  lemma AscendPush(picked: seq<Decision>, decisions: seq<Decision>)
    requires decisions != [] && AscendingPids(decisions) && AscendingPids(picked)
    requires forall d <- picked :: d in decisions[..|decisions| - 1]
    ensures AscendingPids(picked + [decisions[|decisions| - 1]])
  {
    var n := |decisions| - 1;
    forall i | 0 <= i < |picked|
      ensures picked[i].pid < decisions[n].pid
    {
      assert picked[i] in picked;
      var k :| 0 <= k < n && decisions[k] == picked[i];
    }
  }

  /** The decision table as a whole: one row per tracked PID, lowest first; and a PID is marked for
      SIGTERM exactly when it is alive, not pending, condemned by policy, in breach (its own or the
      host's), and the window has room. */
  lemma DecisionTable(e: Exec, policy: Policy, processes: map<Pid, Lifecycle>, b: Breaches)
    ensures var d := Evaluate(e, policy, processes, b);
            && (forall i, j :: 0 <= i < j < |d| ==> d[i].pid < d[j].pid)
            && (forall i :: 0 <= i < |d| ==> d[i].pid in processes)
            && (forall pid <- processes :: exists i :: 0 <= i < |d| && d[i].pid == pid)
            && (forall i :: 0 <= i < |d| ==>
                  (d[i].action.SignalTermSent?
                   <==> var lc := processes[d[i].pid];
                        && !lc.exited && d[i].pid !in e.pending && policy.WantsKill(lc.name, lc.category)
                        && (b.hot || d[i].pid in b.vram || d[i].pid in b.ram) && !Exceeded(e, policy)))
  {
    hide Sorting.Ascending, MarkedReason;
    var pids := Sorting.Ascending(processes.Keys);
    var d := Evaluate(e, policy, processes, b);
    forall i | 0 <= i < |pids|
      ensures d[i] == Decide(e, policy, pids[i], processes[pids[i]], b) && d[i].pid == pids[i] && pids[i] in processes
    {
      assert pids[i] in pids;
    }
    forall pid <- processes
      ensures exists i :: 0 <= i < |d| && d[i].pid == pid
    {
      assert pid in pids;
    }
  }

  /** What is decided of a PID, and when: one if-and-only-if for each action, in the order in which they are asked. */
  ghost predicate DecidedAs(d: Decision, e: Exec, policy: Policy, lc: Lifecycle, b: Breaches) {
    var pending := d.pid in e.pending;
    var condemned := && lc.name !in policy.allow
                     && (lc.name in policy.block
                         || (policy.killByDefault
                             && lc.category in {Some(Inference), Some(Training), Some(ModelDownload), Some(Framework)}));
    var breaching := b.hot || d.pid in b.vram || d.pid in b.ram;
    var full := policy.maxKills > 0 && |e.recent| >= policy.maxKills;
    && (d.action.AlreadyExited? <==> lc.exited)
    && (d.action.AlreadyPending? <==> !lc.exited && pending)
    && (d.action.Whitelisted? <==> !lc.exited && !pending && !condemned)
    && (d.action.Skipped? <==> !lc.exited && !pending && condemned && !breaching)
    && (d.action.RateLimited? <==> !lc.exited && !pending && condemned && breaching && full)
    && (d.action.SignalTermSent? <==> !lc.exited && !pending && condemned && breaching && !full)
    && (d.action.SignalTermSent? ==> ListsTriggers(d.reason, d.pid in b.vram, d.pid in b.ram, b.hot))
  }

  /** The reason of a marked PID lists what it is marked for, with commas in between. */
  predicate ListsTriggers(reason: Bytes, vram: bool, ram: bool, hot: bool) {
    var v, r, h, comma := Ascii("vram"), Ascii("ram"), Ascii("host-thermal"), Ascii(",");
    reason == Ascii("AI process marked for kill: triggers=[") + (
      if vram && ram && hot then v + comma + (r + comma + h)
      else if vram && ram then v + comma + r
      else if vram && hot then v + comma + h
      else if ram && hot then r + comma + h
      else if vram then v
      else if ram then r
      else if hot then h
      else []) + Ascii("]")
  }

  lemma JoinWords(v: Bytes, r: Bytes, h: Bytes)
    ensures Join([]) == [] && Join([v]) == v && Join([v, r]) == v + Ascii(",") + r
    ensures Join([v, r, h]) == v + Ascii(",") + (r + Ascii(",") + h)
  {
    hide Ascii;
    assert [v, r][1..] == [r] && [v, r, h][1..] == [r, h];
    assert [r, h][1..] == [h];
    assert Join([r]) == r && Join([h]) == h && Join([r, h]) == r + Ascii(",") + h;
  }

  lemma TriggersListed(b: Breaches, pid: Pid)
    ensures ListsTriggers(MarkedReason(b, pid), pid in b.vram, pid in b.ram, b.hot)
  {
    hide Ascii, Join;
    var v, r, h := Ascii("vram"), Ascii("ram"), Ascii("host-thermal");
    JoinWords(v, r, h);
    JoinWords(v, h, r);
    JoinWords(r, h, v);
    JoinWords(h, v, r);
    var words := (if pid in b.vram then [v] else []) + (if pid in b.ram then [r] else []) + (if b.hot then [h] else []);
    assert words == if pid in b.vram then
                      if pid in b.ram then if b.hot then [v, r, h] else [v, r] else if b.hot then [v, h] else [v]
                    else if pid in b.ram then if b.hot then [r, h] else [r] else if b.hot then [h] else [];
  }

  lemma DecideDecides(e: Exec, policy: Policy, pid: Pid, lc: Lifecycle, b: Breaches)
    ensures DecidedAs(Decide(e, policy, pid, lc, b), e, policy, lc, b) && Decide(e, policy, pid, lc, b).pid == pid
  {
    TriggersListed(b, pid);
    hide ListsTriggers, MarkedReason, Ascii;
  }

  /** Every tracked PID is decided upon, as the table of actions says. */
  lemma DecisionActions(e: Exec, policy: Policy, processes: map<Pid, Lifecycle>, b: Breaches, pid: Pid)
    requires pid in processes
    ensures exists d <- Evaluate(e, policy, processes, b) :: d.pid == pid && DecidedAs(d, e, policy, processes[pid], b)
  {
    var pids := Sorting.Ascending(processes.Keys);
    hide Sorting.Ascending, Decide, DecidedAs;
    assert pid in pids;
    var i :| 0 <= i < |pids| && pids[i] == pid;
    DecideDecides(e, policy, pid, processes[pid], b);
    assert Evaluate(e, policy, processes, b)[i] == Decide(e, policy, pid, processes[pid], b);
    assert Evaluate(e, policy, processes, b)[i] in Evaluate(e, policy, processes, b);
  }

  /** A completed tick decides once per PID and never to signal one that is pending. */
  lemma TickMakesPlanFresh(cfg: Config, s: State, input: TickInput)
    requires input.sample.Some?
    ensures PlanFresh(Tick(cfg, s, input))
  {
    var t := Tick(cfg, s, input);
    var b := TickDecides(cfg, s, input);
    DecisionTable(t.exec, cfg.policy, input.sample.value.processes, b);
    hide Tick, Evaluate;
    CandidatesAscend(t.decisions);
    var c := Candidates(t.decisions);
    forall i | 0 <= i < |c|
      ensures c[i].pid !in t.exec.pending
    {
      assert c[i] in c && c[i] in t.decisions;
    }
  }

  lemma TickDecides(cfg: Config, s: State, input: TickInput) returns (b: Breaches)
    requires input.sample.Some?
    ensures var t := Tick(cfg, s, input);
            t.decisions == Evaluate(t.exec, cfg.policy, input.sample.value.processes, b)
  {
    hide Project, BreachingPids, Refresh, Drained, Evaluate;
    var sample := input.sample.value;
    b := Project(Drained(cfg, Tune(s, input), sample, input.now, |sample.exits|));
  }

  // ---------------------------------------------------------------- the log

  lemma RepeatedPush(log: seq<Observation>, o: Observation)
    requires NoneRepeated(log) && (IsAutomatedTerm(o) ==> Outstanding(log, o.entry.pid).None?)
    ensures NoneRepeated(log + [o])
  {
    hide Outstanding;
    forall k | 0 <= k < |log + [o]|
      ensures (log + [o])[..k] == log[..k]
    {
    }
    assert log[..|log|] == log;
  }

  lemma OtherOpStep(cfg: Config, s: State, op: Op)
    requires NoneRepeated(s.log) && !(op.Term? && op.source.Automated?)
    ensures NoneRepeated(Apply(cfg, s, op).log)
  {
    match op
    case Term(source, pid, name, category, fallback, reason, v) =>
      TermShows(cfg, s, op);
      RepeatedPush(s.log, TermObservation(source, pid, name, category, reason, v));
    case Kill(source, pid, name, category, v) =>
      KillShows(cfg, s, op);
      RepeatedPush(s.log, KillObservation(s, source, pid, name, category, v));
    case Exit(x, dmesg, now) =>
      ExitShows(cfg, s, op);
      RepeatedPush(s.log, Gone(now, x.summary, ReasonOf(s.killed, x, dmesg)));
    case _ => QuietShows(cfg, s, op);
  }

  lemma {:induction false} OtherOps(cfg: Config, s: State, ops: seq<Op>)
    requires NoneRepeated(s.log) && forall op <- ops :: !(op.Term? && op.source.Automated?)
    ensures NoneRepeated(After(cfg, s, ops).log)
    decreases |ops|
  {
    hide NoneRepeated, Apply;
    if ops != [] {
      OtherOps(cfg, s, ops[..|ops| - 1]);
      OtherOpStep(cfg, After(cfg, s, ops[..|ops| - 1]), ops[|ops| - 1]);
    }
  }

  /** A turn makes at most its own candidate pending. */
  lemma ActuateGrowsPending(cfg: Config, s: State, c: Decision, start: Time, v: View)
    ensures var t := Actuate(cfg, s, c, start, v);
            s.exec.pending.Keys <= t.exec.pending.Keys <= s.exec.pending.Keys + {c.pid}
  {
    hide PushBounded, Tag;
  }

  lemma {:induction false} ActuatedGrowsPending(cfg: Config, s: State, os: nat -> View, n: nat)
    requires n <= |Candidates(s.decisions)|
    ensures var c := Candidates(s.decisions);
            var t := Actuated(cfg, s, os, n);
            && s.exec.pending.Keys <= t.exec.pending.Keys
            && forall p <- t.exec.pending :: p in s.exec.pending || exists i :: 0 <= i < n && c[i].pid == p
  {
    hide Actuate;
    if n > 0 {
      ActuatedGrowsPending(cfg, s, os, n - 1);
      ActuateGrowsPending(cfg, Actuated(cfg, s, os, n - 1), Candidates(s.decisions)[n - 1], os(0).now, os(n));
    }
  }

  lemma ActuateStep(cfg: Config, s: State, c: Decision, start: Time, v: View)
    requires NoneRepeated(s.log) && PendingDescribesLog(s) && c.pid !in s.exec.pending
    ensures NoneRepeated(Actuate(cfg, s, c, start, v).log)
  {
    var t := HeldAt(cfg, s, v.now);
    var row := FindRow(s.annotated, c.pid);
    if Sustained(s, c.pid, start) && row.Some? && !Exceeded(t.exec, cfg.policy) {
      TermShows(cfg, t, Term(Automated, c.pid, row.value.name, Some(row.value.category), Inference, c.reason, v));
      RepeatedPush(s.log, TermObservation(Automated, c.pid, row.value.name, Some(row.value.category), c.reason, v));
    }
  }

  lemma {:induction false} ActuatedStep(cfg: Config, s: State, os: nat -> View, n: nat)
    requires n <= |Candidates(s.decisions)|
    requires NoneRepeated(s.log) && PlanFresh(s)
    requires forall i :: 0 <= i < n ==> PendingDescribesLog(Actuated(cfg, s, os, i))
    ensures NoneRepeated(Actuated(cfg, s, os, n).log)
  {
    hide Actuate, NoneRepeated, PendingDescribesLog;
    if n > 0 {
      ActuatedStep(cfg, s, os, n - 1);
      ActuatedGrowsPending(cfg, s, os, n - 1);
      assert PendingDescribesLog(Actuated(cfg, s, os, n - 1));
      ActuateStep(cfg, Actuated(cfg, s, os, n - 1), Candidates(s.decisions)[n - 1], os(0).now, os(n));
    }
  }

  // ---------------------------------------------------------------- one event

  /** The pending entries describe the log at every turn of a pass. */
  lemma DescribedAtEveryTurn(cfg: Config, init: State, events: seq<Event>, os: nat -> View, order: seq<Pid>, i: nat)
    requires IsInitial(init) && LegalRun(cfg, init, events) && cfg.autoActuate
    requires Legal(cfg, Run(cfg, init, events), PassEvent(os, order))
    requires i <= |Candidates(Run(cfg, init, events).decisions)|
    ensures PendingDescribesLog(Actuated(cfg, Run(cfg, init, events), os, i))
  {
    hide LegalOps, After, Actuated, Run, LegalRun, Candidates, PendingDescribesLog, KillsJustified;
    var s := Run(cfg, init, events);
    var past := RunOps(cfg, Anyone(), init, events);
    var turns := ActuatedOps(cfg, Anyone(), s, os, i);
    Concat(cfg, Anyone(), init, past, turns);
    SafeAfter(cfg, Anyone(), init, past + turns);
  }

  lemma PassStep(cfg: Config, init: State, events: seq<Event>, os: nat -> View, order: seq<Pid>)
    requires IsInitial(init) && LegalRun(cfg, init, events)
    requires var s := Run(cfg, init, events);
             Legal(cfg, s, PassEvent(os, order)) && NoneRepeated(s.log) && PlanFresh(s)
    ensures NoneRepeated(Pass(cfg, Run(cfg, init, events), os, order).log)
  {
    hide Run, LegalRun, NoneRepeated, PlanFresh, PendingDescribesLog, Candidates;
    var s := Run(cfg, init, events);
    if cfg.autoActuate {
      var n := |Candidates(s.decisions)|;
      forall i | 0 <= i < n
        ensures PendingDescribesLog(Actuated(cfg, s, os, i))
      {
        DescribedAtEveryTurn(cfg, init, events, os, order, i);
      }
      ActuatedStep(cfg, s, os, n);
      var kills := KillsOfPass(cfg, s, os, order);
      OtherOps(cfg, Actuated(cfg, s, os, n), kills);
    }
  }

  lemma KillsOfPass(cfg: Config, s: State, os: nat -> View, order: seq<Pid>) returns (ops: seq<Op>)
    requires cfg.autoActuate && Legal(cfg, s, PassEvent(os, order))
    ensures After(cfg, Actuated(cfg, s, os, |Candidates(s.decisions)|), ops) == Pass(cfg, s, os, order)
    ensures forall op <- ops :: op.Kill?
  {
    hide LegalOps, After, Actuated, Escalate, Candidates;
    var n := |Candidates(s.decisions)|;
    var t := Actuated(cfg, s, os, n);
    var terms := ActuatedOps(cfg, Anyone(), s, os, n);
    assert AllExpired(cfg, t.exec, order, os(n + 1).now) by {
      assert forall i :: 0 <= i < |order| ==> order[i] in order;
    }
    assert os(n).now <= os(n + 1).now;
    ops := EscalateOps(cfg, Anyone(), t, order, os, n + 2);
  }

  lemma EventStep(cfg: Config, s: State, e: Event)
    requires Legal(cfg, s, e) && !e.PassEvent? && NoneRepeated(s.log)
    ensures NoneRepeated(Step(cfg, s, e).log)
    ensures !e.ManualKillEvent? && !(e.TickEvent? && e.input.sample.Some?) && PlanFresh(s) ==> PlanFresh(Step(cfg, s, e))
  {
    hide NoneRepeated, Candidates, Slay, Terminate, Drained, Assess;
    match e
    case TickEvent(input) =>
      var ops := TickOps(cfg, Anyone(), s, input);
      OtherOps(cfg, s, ops);
    case ManualKillEvent(pid, reason, v) =>
      if s.processes.Some? && pid in s.processes.value {
        var lc := s.processes.value[pid];
        OtherOpStep(cfg, s, Term(Manual, pid, lc.name, lc.category, NotAi, reason, v));
      }
    case ForceKillEvent(pid, v) =>
      if s.processes.Some? {
        var op := Kill(Manual, pid, ForceIdentity(s, pid).0, ForceIdentity(s, pid).1, v);
        KillShows(cfg, s, op);
        SigkillStampsOnly(s.exec, pid, v);
        OtherOpStep(cfg, s, op);
      }
  }

  // ---------------------------------------------------------------- the theorem

  /** In every legal run in which each pass finds fresh decisions, no PID gets a second automated
      SIGTERM, or one on top of a manual SIGTERM, while the first is outstanding. */
  lemma {:induction false} NoSecondSigterm(cfg: Config, init: State, events: seq<Event>)
    requires IsInitial(init) && LegalRun(cfg, init, events) && Disciplined(events)
    ensures NoneRepeated(Run(cfg, init, events).log)
    ensures Fresh(events) ==> PlanFresh(Run(cfg, init, events))
    decreases |events|
  {
    hide NoneRepeated, Step, Legal;
    if events == [] {
      NothingYet(init);
    } else {
      var n := |events| - 1;
      var s := Run(cfg, init, events[..n]);
      NoSecondSigterm(cfg, init, events[..n]);
      LastEvent(cfg, init, events[..n], events[n]);
    }
  }

  lemma NothingYet(init: State)
    requires IsInitial(init)
    ensures NoneRepeated(init.log) && PlanFresh(init)
  {
  }

  lemma LastEvent(cfg: Config, init: State, events: seq<Event>, e: Event)
    requires IsInitial(init) && LegalRun(cfg, init, events)
    requires var s := Run(cfg, init, events);
             && Legal(cfg, s, e) && NoneRepeated(s.log)
             && (Fresh(events) ==> PlanFresh(s)) && (e.PassEvent? ==> Fresh(events))
    ensures NoneRepeated(Step(cfg, Run(cfg, init, events), e).log)
    ensures !e.PassEvent? && !e.ManualKillEvent? && (Fresh(events) || (e.TickEvent? && e.input.sample.Some?)) ==>
              PlanFresh(Step(cfg, Run(cfg, init, events), e))
  {
    var s := Run(cfg, init, events);
    hide NoneRepeated, PlanFresh, Legal, Pass, Tick, ManualKill, ForceKill;
    if e.PassEvent? {
      PassStep(cfg, init, events, e.os, e.order);
    } else {
      EventStep(cfg, s, e);
      if e.TickEvent? && e.input.sample.Some? {
        TickMakesPlanFresh(cfg, s, e.input);
      }
    }
  }

  // ---------------------------------------------------------------- the excluded case

  lemma {:induction false} EscalateKeepsPlan(cfg: Config, s: State, order: seq<Pid>, os: nat -> View, base: nat)
    ensures SamePlan(s, Escalate(cfg, s, order, os, base))
    ensures Escalate(cfg, s, order, os, base).exec.pending.Keys == s.exec.pending.Keys
    decreases |order|
  {
    if order != [] {
      var n := |order| - 1;
      var t := Escalate(cfg, s, order[..n], os, base);
      hide EscalateOne, SamePlan;
      EscalateKeepsPlan(cfg, s, order[..n], os, base);
      EscalateOneKeepsPlan(cfg, t, order[n], os(base + n));
      SamePlanTwice(s, t, EscalateOne(cfg, t, order[n], os(base + n)));
    }
  }

  lemma EscalateOneKeepsPlan(cfg: Config, s: State, pid: Pid, v: View)
    ensures SamePlan(s, EscalateOne(cfg, s, pid, v))
    ensures EscalateOne(cfg, s, pid, v).exec.pending.Keys == s.exec.pending.Keys
  {
    KillShows(cfg, s, Kill(Automated, pid, Identity(s, pid).0, Identity(s, pid).1, v));
    SigkillStampsOnly(s.exec, pid, v);
    hide Slay, SendSigkill, KillObservation;
  }

  lemma SamePlanTwice(s: State, t: State, u: State)
    requires SamePlan(s, t) && SamePlan(t, u)
    ensures SamePlan(s, u)
  {
  }

  lemma {:induction false} ActuatedKeepsPending(cfg: Config, s: State, os: nat -> View, m: nat, n: nat)
    requires m <= n <= |Candidates(s.decisions)|
    ensures Actuated(cfg, s, os, m).exec.pending.Keys <= Actuated(cfg, s, os, n).exec.pending.Keys
    ensures SamePlan(s, Actuated(cfg, s, os, m)) ==> SamePlan(s, Actuated(cfg, s, os, n))
    decreases n
  {
    hide Actuate;
    if m < n {
      ActuatedKeepsPending(cfg, s, os, m, n - 1);
      var u, c := Actuated(cfg, s, os, n - 1), Candidates(s.decisions)[n - 1];
      ActuateGrowsPending(cfg, u, c, os(0).now, os(n));
      ActuateKeepsPlan(cfg, u, c, os(0).now, os(n));
    }
  }

  lemma ActuateKeepsPlan(cfg: Config, s: State, c: Decision, start: Time, v: View)
    ensures SamePlan(s, Actuate(cfg, s, c, start, v))
  {
    hide PushBounded, Tag;
  }

  lemma PassKeepsPlan(cfg: Config, s: State, os: nat -> View, order: seq<Pid>, m: nat)
    requires cfg.autoActuate && m <= |Candidates(s.decisions)|
    ensures SamePlan(s, Pass(cfg, s, os, order))
    ensures Actuated(cfg, s, os, m).exec.pending.Keys <= Pass(cfg, s, os, order).exec.pending.Keys
  {
    hide Candidates, Actuate;
    var n := |Candidates(s.decisions)|;
    ActuatedKeepsPending(cfg, s, os, 0, n);
    ActuatedKeepsPending(cfg, s, os, m, n);
    EscalateKeepsPlan(cfg, Actuated(cfg, s, os, n), order, os, n + 2);
  }

  lemma RunSnoc(cfg: Config, init: State, events: seq<Event>, e: Event)
    ensures Run(cfg, init, events + [e]) == Step(cfg, Run(cfg, init, events), e)
    ensures LegalRun(cfg, init, events + [e])
            <==> LegalRun(cfg, init, events) && Legal(cfg, Run(cfg, init, events), e)
  {
    hide Step, Legal;
    assert (events + [e])[..|events|] == events;
  }

  /** Why the hypothesis is there. A pass delivers a SIGTERM to a candidate; the next tick fails; the
      loop still runs its pass, on the old decisions. The same candidate is then signalled again,
      its first entry still pending, unless the window happens to be full. */
  lemma StalePlanFiresAgain(cfg: Config, init: State, events: seq<Event>, os: nat -> View, order: seq<Pid>,
                            failed: TickInput, os': nat -> View, order': seq<Pid>, i: nat)
    requires IsInitial(init) && LegalRun(cfg, init, events) && cfg.autoActuate
    requires failed.sample.None? && failed.tunables.None?
    requires var s := Run(cfg, init, events);
             var t := Tick(cfg, Pass(cfg, s, os, order), failed);
             && Legal(cfg, s, PassEvent(os, order))
             && Legal(cfg, Pass(cfg, s, os, order), TickEvent(failed))
             && Legal(cfg, t, PassEvent(os', order')) && os(0).now <= os'(0).now
             && i < |Candidates(s.decisions)|
             && var c := Candidates(s.decisions)[i];
             && Due(s, c.pid, os(0).now) && FindRow(s.annotated, c.pid).Some?
             && HasRoom(cfg, Actuated(cfg, s, os, i).log, os(i + 1).now)
             && KillByPid(os(i + 1), c.pid).Delivered?
    ensures var s := Run(cfg, init, events);
            var t := Tick(cfg, Pass(cfg, s, os, order), failed);
            && Candidates(t.decisions) == Candidates(s.decisions)
            && var c := Candidates(s.decisions)[i];
               var row := FindRow(s.annotated, c.pid).value;
               var u := Actuated(cfg, t, os', i);
            && c.pid in u.exec.pending
            && Actuated(cfg, t, os', i + 1).log
               == if HasRoom(cfg, u.log, os'(i + 1).now) then
                    u.log + [TermObservation(Automated, c.pid, row.name, Some(row.category), c.reason, os'(i + 1))]
                  else u.log
  {
    var s := Run(cfg, init, events);
    var p := Pass(cfg, s, os, order);
    var t := Tick(cfg, p, failed);
    var c := Candidates(s.decisions)[i];
    var all := events + [PassEvent(os, order)] + [TickEvent(failed)];
    FirstSigtermIsPending(cfg, init, events, os, order, i);
    FailedTickKeepsPlan(cfg, init, events, os, order, failed, i + 1);
    hide Run, LegalRun, Legal, Actuated, Pass, Tick, TermObservation, Candidates, Due, HasRoom, KillByPid;
    LaterIsStillDue(s, t, c.pid, os(0).now, os'(0).now);
    CandidateFiresExactlyWhenDue(cfg, init, all, os', order', i);
    ActuatedGrowsPending(cfg, t, os', i);
  }

  /** A pass and a failed tick: where they leave the run. */
  lemma FailedTickKeepsPlan(cfg: Config, init: State, events: seq<Event>, os: nat -> View, order: seq<Pid>, failed: TickInput, m: nat)
    requires LegalRun(cfg, init, events) && cfg.autoActuate && failed.sample.None? && failed.tunables.None?
    requires var s := Run(cfg, init, events);
             && Legal(cfg, s, PassEvent(os, order)) && Legal(cfg, Pass(cfg, s, os, order), TickEvent(failed))
             && m <= |Candidates(s.decisions)|
    ensures var s := Run(cfg, init, events);
            var t := Tick(cfg, Pass(cfg, s, os, order), failed);
            var all := events + [PassEvent(os, order)] + [TickEvent(failed)];
            && LegalRun(cfg, init, all) && Run(cfg, init, all) == t && SamePlan(s, t)
            && Actuated(cfg, s, os, m).exec.pending.Keys <= t.exec.pending.Keys
  {
    var s := Run(cfg, init, events);
    hide Run, LegalRun, Legal, Actuated, Pass, Candidates;
    PassKeepsPlan(cfg, s, os, order, m);
    RunSnoc(cfg, init, events, PassEvent(os, order));
    RunSnoc(cfg, init, events + [PassEvent(os, order)], TickEvent(failed));
  }

  lemma LaterIsStillDue(s: State, t: State, pid: Pid, at: Time, later: Time)
    requires Due(s, pid, at) && SamePlan(s, t) && at <= later
    ensures Due(t, pid, later)
  {
    var j: nat :| StretchFrom(s.ticks, pid, j) && s.ticks[j].now + s.sustainSecs * SECOND <= at;
    assert StretchFrom(t.ticks, pid, j);
  }

  lemma FirstSigtermIsPending(cfg: Config, init: State, events: seq<Event>, os: nat -> View, order: seq<Pid>, i: nat)
    requires IsInitial(init) && LegalRun(cfg, init, events) && cfg.autoActuate
    requires var s := Run(cfg, init, events);
             && Legal(cfg, s, PassEvent(os, order)) && i < |Candidates(s.decisions)|
             && var c := Candidates(s.decisions)[i];
             && Due(s, c.pid, os(0).now) && FindRow(s.annotated, c.pid).Some?
             && HasRoom(cfg, Actuated(cfg, s, os, i).log, os(i + 1).now)
             && KillByPid(os(i + 1), c.pid).Delivered?
    ensures var s := Run(cfg, init, events);
            Candidates(s.decisions)[i].pid in Actuated(cfg, s, os, i + 1).exec.pending
  {
    var s := Run(cfg, init, events);
    var u := Actuated(cfg, s, os, i);
    var c := Candidates(s.decisions)[i];
    PassPrefix(cfg, init, events, os, order, i);
    BreachSinceIsStretchStart(cfg, init, events);
    SustainedIffDue(s, c.pid, os(0).now);
    hide Run, LegalRun, Actuate, Budgeted, SinceIsStretchStart;
    assert Sustained(u, c.pid, os(0).now);
    ActuateDelivers(cfg, u, c, os(0).now, os(i + 1));
  }

  lemma ActuateDelivers(cfg: Config, s: State, c: Decision, start: Time, v: View)
    requires Budgeted(cfg, s) && s.clock <= v.now && Sustained(s, c.pid, start) && FindRow(s.annotated, c.pid).Some?
    requires HasRoom(cfg, s.log, v.now) && KillByPid(v, c.pid).Delivered?
    ensures c.pid in Actuate(cfg, s, c, start, v).exec.pending
  {
    hide PushBounded, Tag;
    TrimStep(cfg, s, v.now);
  }

  lemma RepeatedPushIff(log: seq<Observation>, o: Observation)
    ensures NoneRepeated(log + [o])
            <==> NoneRepeated(log) && (IsAutomatedTerm(o) ==> Outstanding(log, o.entry.pid).None?)
  {
    hide Outstanding;
    var all := log + [o];
    forall k | 0 <= k <= |log|
      ensures all[..k] == log[..k]
    {
    }
    assert log[..|log|] == log && all[|log|] == o;
    if NoneRepeated(all) {
      forall k | 0 <= k < |log| && IsAutomatedTerm(log[k])
        ensures Outstanding(log[..k], log[k].entry.pid).None?
      {
        assert all[k] == log[k];
      }
    }
    if NoneRepeated(log) && (IsAutomatedTerm(o) ==> Outstanding(log, o.entry.pid).None?) {
      RepeatedPush(log, o);
    }
  }

  /** The exact condition, turn by turn. In any legal run, disciplined or not, a candidate's turn
      repeats a SIGTERM if and only if its PID is pending when the turn comes and every gate is open:
      the stretch long enough, the row present, room in the window, and the signal delivered. */
  lemma TurnRepeatsIff(cfg: Config, init: State, events: seq<Event>, os: nat -> View, order: seq<Pid>, i: nat)
    requires IsInitial(init) && LegalRun(cfg, init, events) && cfg.autoActuate
    requires Legal(cfg, Run(cfg, init, events), PassEvent(os, order))
    requires i < |Candidates(Run(cfg, init, events).decisions)|
    ensures var s := Run(cfg, init, events);
            var c := Candidates(s.decisions)[i];
            var before := Actuated(cfg, s, os, i);
            NoneRepeated(Actuated(cfg, s, os, i + 1).log)
            <==> NoneRepeated(before.log)
                 && !(&& c.pid in before.exec.pending && Due(s, c.pid, os(0).now) && FindRow(s.annotated, c.pid).Some?
                      && HasRoom(cfg, before.log, os(i + 1).now) && KillByPid(os(i + 1), c.pid).Delivered?)
  {
    CandidateFiresExactlyWhenDue(cfg, init, events, os, order, i);
    DescribedAtEveryTurn(cfg, init, events, os, order, i);
    hide Run, LegalRun, Legal, Actuated, Due, HasRoom, NoneRepeated, TermObservation, KillByPid, Describes;
    var s := Run(cfg, init, events);
    var c := Candidates(s.decisions)[i];
    var before := Actuated(cfg, s, os, i);
    var row := FindRow(s.annotated, c.pid);
    PendingIffOutstanding(before, c.pid);
    if row.Some? {
      RepeatedPushIff(before.log, TermObservation(Automated, c.pid, row.value.name, Some(row.value.category), c.reason, os(i + 1)));
    }
  }

  lemma PendingIffOutstanding(s: State, pid: Pid)
    requires PendingDescribesLog(s)
    ensures pid in s.exec.pending <==> Outstanding(s.log, pid).Some?
  {
    hide Outstanding;
  }
}
