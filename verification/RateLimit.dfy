/** The kill budget over whole runs: the trimmed deque always knows how many SIGTERMs were delivered
    in the window, so no sliding window ever holds more automated ones than the policy allows. */
module RateLimit {
  import opened Kernel
  import opened Executor
  import opened Protocol
  import opened Runs

  /** A delivered SIGTERM, automated or manual: the one thing that uses the budget. */
  predicate Counts(o: Observation) {
    o.Attempt? && o.hit.Some? && o.entry.action.AuditSigterm?
  }

  /** How many SIGTERMs were delivered at or after `since`. */
  function SigtermsSince(log: seq<Observation>, since: Time): nat {
    if log == [] then 0
    else
      var o := log[|log| - 1];
      SigtermsSince(log[..|log| - 1], since) + if Counts(o) && o.time >= since then 1 else 0
  }

  /** How many automated SIGTERMs were delivered in `[from, to]`. */
  function AutomatedIn(log: seq<Observation>, from: Time, to: Time): nat {
    if log == [] then 0
    else
      var o := log[|log| - 1];
      AutomatedIn(log[..|log| - 1], from, to)
      + if Counts(o) && o.entry.source.Automated? && from <= o.time <= to then 1 else 0
  }

  function CountFrom(times: seq<Time>, since: Time): nat {
    if times == [] then 0
    else CountFrom(times[..|times| - 1], since) + if times[|times| - 1] >= since then 1 else 0
  }

  predicate Sorted(times: seq<Time>, latest: Time) {
    && (forall i, j :: 0 <= i < j < |times| ==> times[i] <= times[j])
    && (forall i :: 0 <= i < |times| ==> times[i] <= latest)
  }

  /** The deque is in order and, over any part of the current window, agrees with the log. */
  ghost predicate WindowKnown(cfg: Config, s: State) {
    && Sorted(s.exec.recent, s.clock)
    && forall since :: since >= s.clock - cfg.policy.Window() ==> CountFrom(s.exec.recent, since) == SigtermsSince(s.log, since)
  }

  /** Each automated SIGTERM found fewer than the maximum in the window that ends with it. */
  ghost predicate WithinBudget(cfg: Config, log: seq<Observation>) {
    forall k :: 0 <= k < |log| && Counts(log[k]) && log[k].entry.source.Automated? && cfg.policy.maxKills > 0 ==>
      SigtermsSince(log[..k], log[k].time - cfg.policy.Window()) < cfg.policy.maxKills
  }

  ghost predicate Budgeted(cfg: Config, s: State) {
    WindowKnown(cfg, s) && WithinBudget(cfg, s.log)
  }

  // ---------------------------------------------------------------- counting

  lemma {:induction false} CountSplit(a: seq<Time>, b: seq<Time>, since: Time)
    ensures CountFrom(a + b, since) == CountFrom(a, since) + CountFrom(b, since)
    decreases |b|
  {
    if b == [] {
      assert a + b == a;
    } else {
      assert (a + b)[..|a + b| - 1] == a + b[..|b| - 1];
      CountSplit(a, b[..|b| - 1], since);
    }
  }

  /** Trimming removes exactly what lies before the cutoff, and leaves the count after it alone. */
  lemma {:induction false} TrimCounts(times: seq<Time>, cutoff: Time, since: Time, latest: Time)
    requires Sorted(times, latest) && since >= cutoff
    ensures var kept := Trim(times, cutoff);
            && Sorted(kept, latest)
            && CountFrom(kept, since) == CountFrom(times, since)
            && CountFrom(kept, cutoff) == |kept|
    decreases |times|
  {
    if times != [] && times[0] < cutoff {
      TrimCounts(times[1..], cutoff, since, latest);
      CountSplit(times[..1], times[1..], since);
      assert times == times[..1] + times[1..];
      assert times[..1][..0] == [];
    } else {
      AllCount(times, cutoff);
    }
  }

  lemma {:induction false} AllCount(times: seq<Time>, since: Time)
    requires forall i :: 0 <= i < |times| ==> times[i] >= since
    ensures CountFrom(times, since) == |times|
  {
    if times != [] {
      AllCount(times[..|times| - 1], since);
    }
  }

  lemma CountPush(times: seq<Time>, t: Time, since: Time)
    ensures CountFrom(times + [t], since) == CountFrom(times, since) + if t >= since then 1 else 0
  {
    assert (times + [t])[..|times|] == times;
  }

  lemma DeliveredPush(log: seq<Observation>, o: Observation, since: Time)
    ensures SigtermsSince(log + [o], since) == SigtermsSince(log, since) + if Counts(o) && o.time >= since then 1 else 0
  {
    assert (log + [o])[..|log|] == log;
  }

  lemma BudgetPush(cfg: Config, log: seq<Observation>, o: Observation)
    requires WithinBudget(cfg, log)
    requires Counts(o) && o.entry.source.Automated? && cfg.policy.maxKills > 0 ==>
               SigtermsSince(log, o.time - cfg.policy.Window()) < cfg.policy.maxKills
    ensures WithinBudget(cfg, log + [o])
  {
    forall k | 0 <= k < |log + [o]|
      ensures (log + [o])[..k] == log[..k]
    {
    }
    assert log[..|log|] == log;
  }

  // ---------------------------------------------------------------- one step

  lemma TrimStep(cfg: Config, s: State, now: Time)
    requires WindowKnown(cfg, s) && s.clock <= now
    ensures WindowKnown(cfg, HeldAt(cfg, s, now))
    ensures |HeldAt(cfg, s, now).exec.recent| == SigtermsSince(s.log, now - cfg.policy.Window())
  {
    var t := HeldAt(cfg, s, now);
    var cutoff := now - cfg.policy.Window();
    forall since | since >= cutoff
      ensures CountFrom(t.exec.recent, since) == SigtermsSince(t.log, since) && Sorted(t.exec.recent, now)
    {
      TrimCounts(s.exec.recent, cutoff, since, s.clock);
    }
    assert cutoff >= cutoff;
    TrimCounts(s.exec.recent, cutoff, cutoff, s.clock);
  }

  /** An observation that is no delivered SIGTERM, at a later clock. */
  lemma OtherStep(cfg: Config, s: State, t: State, o: Observation)
    requires Budgeted(cfg, s) && t.log == s.log + [o] && !Counts(o)
    requires t.exec.recent == s.exec.recent && t.clock >= s.clock
    ensures Budgeted(cfg, t)
  {
    BudgetPush(cfg, s.log, o);
    forall since
      ensures SigtermsSince(t.log, since) == SigtermsSince(s.log, since)
    {
      DeliveredPush(s.log, o, since);
    }
  }

  lemma TermStep(cfg: Config, s: State, op: Op)
    requires op.Term? && Budgeted(cfg, s) && Allowed(cfg, s, op)
    ensures Budgeted(cfg, Apply(cfg, s, op))
  {
    var t := Apply(cfg, s, op);
    var o := TermObservation(op.source, op.pid, op.name, op.category, op.reason, op.v);
    TermShows(cfg, s, op);
    if o.hit.Some? {
      TrimStep(cfg, s, op.v.now);
      hide Apply, TermObservation, Sustained;
      BudgetPush(cfg, s.log, o);
      forall since
        ensures SigtermsSince(t.log, since) == SigtermsSince(s.log, since) + if op.v.now >= since then 1 else 0
        ensures CountFrom(t.exec.recent, since) == CountFrom(s.exec.recent, since) + if op.v.now >= since then 1 else 0
      {
        DeliveredPush(s.log, o, since);
        CountPush(s.exec.recent, op.v.now, since);
      }
    } else {
      OtherStep(cfg, s, t, o);
    }
  }

  lemma BudgetStep(cfg: Config, s: State, op: Op)
    requires Budgeted(cfg, s) && Allowed(cfg, s, op)
    ensures Budgeted(cfg, Apply(cfg, s, op))
  {
    var t := Apply(cfg, s, op);
    match op
    case Term(_, _, _, _, _, _, _) => TermStep(cfg, s, op);
    case Kill(source, pid, name, category, v) =>
      KillShows(cfg, s, op);
      SigkillStampsOnly(s.exec, pid, v);
      hide Apply, SendSigkill;
      OtherStep(cfg, s, t, KillObservation(s, source, pid, name, category, v));
    case Exit(x, dmesg, now) =>
      ExitShows(cfg, s, op);
      hide Apply;
      OtherStep(cfg, s, t, Gone(now, x.summary, ReasonOf(s.killed, x, dmesg)));
    case Advance(_, _) => QuietShows(cfg, s, op);
    case _ =>
      QuietShows(cfg, s, op);
      TrimStep(cfg, s, At(op));
  }

  lemma {:induction false} BudgetAfter(cfg: Config, born: iset<Instance>, init: State, ops: seq<Op>)
    requires IsInitial(init) && LegalOps(cfg, born, init, ops)
    ensures Budgeted(cfg, After(cfg, init, ops))
    decreases |ops|
  {
    if ops == [] {
    } else {
      hide Allowed, Budgeted;
      var n := |ops| - 1;
      BudgetAfter(cfg, born, init, ops[..n]);
      BudgetStep(cfg, After(cfg, init, ops[..n]), ops[n]);
    }
  }

  lemma RunBudgeted(cfg: Config, init: State, events: seq<Event>)
    requires IsInitial(init) && LegalRun(cfg, init, events)
    ensures Budgeted(cfg, Run(cfg, init, events))
  {
    hide Budgeted, LegalOps, After, Run, LegalRun;
    var ops := RunOps(cfg, Anyone(), init, events);
    BudgetAfter(cfg, Anyone(), init, ops);
  }

  // ---------------------------------------------------------------- the theorem

  lemma {:induction false} AutomatedAmongDelivered(log: seq<Observation>, from: Time, to: Time, since: Time)
    requires since <= from
    ensures AutomatedIn(log, from, to) <= SigtermsSince(log, since)
  {
    if log != [] {
      AutomatedAmongDelivered(log[..|log| - 1], from, to, since);
    }
  }

  lemma {:induction false} BudgetBoundsWindow(cfg: Config, log: seq<Observation>, from: Time)
    requires WithinBudget(cfg, log) && cfg.policy.maxKills > 0
    ensures AutomatedIn(log, from, from + cfg.policy.Window()) <= cfg.policy.maxKills
  {
    if log != [] {
      var n := |log| - 1;
      assert forall k :: 0 <= k < n ==> log[..n][..k] == log[..k] && log[..n][k] == log[k];
      BudgetBoundsWindow(cfg, log[..n], from);
      if Counts(log[n]) && log[n].entry.source.Automated? && from <= log[n].time <= from + cfg.policy.Window() {
        AutomatedAmongDelivered(log[..n], from, from + cfg.policy.Window(), log[n].time - cfg.policy.Window());
      }
    }
  }

  /** In every legal run and every closed interval as long as the window, at most `maxKills`
      automated SIGTERMs are delivered; and each of them found room among all SIGTERMs delivered in
      the window before it, manual ones included. Nothing bounds manual kills, and nothing that
      failed is counted. With `maxKills` zero the limiter is off: it holds nobody back, whatever was
      delivered. */
  lemma RateLimitHolds(cfg: Config, init: State, events: seq<Event>, from: Time)
    requires IsInitial(init) && LegalRun(cfg, init, events)
    ensures var log := Run(cfg, init, events).log;
            cfg.policy.maxKills > 0 ==>
              AutomatedIn(log, from, from + cfg.policy.Window()) <= cfg.policy.maxKills && WithinBudget(cfg, log)
    ensures cfg.policy.maxKills == 0 <==> forall e: Exec :: !Exceeded(e, cfg.policy)
  {
    RunBudgeted(cfg, init, events);
    if cfg.policy.maxKills > 0 {
      BudgetBoundsWindow(cfg, Run(cfg, init, events).log, from);
      FullQueueBlocks(cfg.policy);
    }
  }

  lemma FullQueueBlocks(policy: Policy)
    requires policy.maxKills > 0
    ensures exists e: Exec :: Exceeded(e, policy)
  {
    assert Exceeded(Exec(map[], seq(policy.maxKills, i => 0)), policy);
  }
}
