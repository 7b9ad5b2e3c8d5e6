/** Every SIGKILL of every run lands on the process that got the SIGTERM it answers, and the
    automated ones wait out the grace period and come once. */
module SigkillSafety {
  import opened Options
  import opened Text
  import opened Kernel
  import opened Rings
  import opened Executor
  import opened Protocol
  import opened Runs

  /** A SIGTERM to this PID that was delivered. */
  predicate IsTerm(o: Observation, pid: Pid) {
    o.Attempt? && o.hit.Some? && o.entry.action.AuditSigterm? && o.entry.pid == pid
  }

  /** A SIGKILL to this PID that was delivered. */
  predicate IsKill(o: Observation, pid: Pid) {
    o.Attempt? && o.hit.Some? && o.entry.action.AuditSigkill? && o.entry.pid == pid
  }

  predicate IsGone(o: Observation, pid: Pid) {
    o.Gone? && o.summary.pid == pid
  }

  /** The SIGTERM at `i` is the one outstanding for `pid` just before `k`: no later SIGTERM, and no
      exit of that PID has been drained since. */
  ghost predicate IsOutstanding(log: seq<Observation>, pid: Pid, i: nat, k: nat) {
    && i < k <= |log| && IsTerm(log[i], pid)
    && forall j :: i < j < k ==> !IsTerm(log[j], pid) && !IsGone(log[j], pid)
  }

  /** The same index, computed from the log alone. */
  function Outstanding(log: seq<Observation>, pid: Pid): (r: Option<nat>)
    ensures r.Some? ==> IsOutstanding(log, pid, r.value, |log|)
    ensures r.None? ==> forall i :: 0 <= i < |log| ==> !IsOutstanding(log, pid, i, |log|)
  {
    if log == [] then None
    else
      var n := |log| - 1;
      if IsTerm(log[n], pid) then Some(n)
      else if IsGone(log[n], pid) then None
      else
        var r := Outstanding(log[..n], pid);
        assert forall i :: 0 <= i < n ==> log[..n][i] == log[i];
        assert forall i :: 0 <= i < n && IsOutstanding(log, pid, i, |log|) ==> IsOutstanding(log[..n], pid, i, n);
        r
  }

  /** The part of an instance that software can read. */
  predicate SameTokens(a: Instance, b: Instance) {
    a.pid == b.pid && a.start == b.start
  }

  /** The SIGKILL at `k` answers the SIGTERM outstanding for its PID, on the same identity; when the
      governor sent it by itself, the grace period had passed and no SIGKILL had got through yet. */
  ghost predicate AnswersAt(cfg: Config, log: seq<Observation>, k: nat, i: nat)
    requires k < |log| && log[k].Attempt? && log[k].hit.Some?
  {
    var pid := log[k].entry.pid;
    && IsOutstanding(log, pid, i, k)
    && SameTokens(log[i].hit.value, log[k].hit.value)
    && (log[k].entry.source.Automated? ==>
          && log[k].time - log[i].time >= cfg.policy.Grace()
          && forall j :: i < j < k ==> !IsKill(log[j], pid))
  }

  ghost predicate KillsJustified(cfg: Config, log: seq<Observation>) {
    forall k :: 0 <= k < |log| && log[k].Attempt? && IsKill(log[k], log[k].entry.pid) ==>
      exists i: nat :: AnswersAt(cfg, log, k, i)
  }

  /** A pending entry describes the outstanding SIGTERM of its PID. */
  ghost predicate Describes(p: Pending, log: seq<Observation>, pid: Pid) {
    && Outstanding(log, pid).Some?
    && var i := Outstanding(log, pid).value;
       var hit := log[i].hit.value;
    && hit.pid == pid
    && p.sigtermTime == log[i].time
    && (p.pidfd.Some? ==> p.pidfd.value == hit)
    && (p.starttime.Some? ==> p.starttime.value == hit.start)
    && (p.sigkillTime.None? ==> forall j :: i < j < |log| ==> !IsKill(log[j], pid))
  }

  /** Entries and outstanding SIGTERMs correspond, both ways. */
  ghost predicate PendingDescribesLog(s: State) {
    && (forall pid <- s.exec.pending :: Describes(s.exec.pending[pid], s.log, pid))
    && (forall pid :: Outstanding(s.log, pid).Some? ==> pid in s.exec.pending)
  }

  ghost predicate HitsBorn(born: iset<Instance>, log: seq<Observation>) {
    forall o <- log :: o.Attempt? && o.hit.Some? ==> o.hit.value in born
  }

  ghost predicate Safe(cfg: Config, born: iset<Instance>, s: State) {
    PendingDescribesLog(s) && KillsJustified(cfg, s.log) && HitsBorn(born, s.log)
  }

  // ---------------------------------------------------------------- one more observation

  lemma OutstandingPush(log: seq<Observation>, o: Observation, pid: Pid)
    ensures Outstanding(log + [o], pid)
            == if IsTerm(o, pid) then Some(|log|) else if IsGone(o, pid) then None else Outstanding(log, pid)
  {
    assert (log + [o])[..|log|] == log;
  }

  /** An observation that is neither a SIGTERM nor an exit of this PID keeps a description true,
      except that a SIGKILL ends the claim that there was none. */
  lemma DescribesPush(p: Pending, log: seq<Observation>, o: Observation, pid: Pid)
    requires Describes(p, log, pid) && !IsTerm(o, pid) && !IsGone(o, pid)
    requires IsKill(o, pid) ==> p.sigkillTime.Some?
    ensures Describes(p, log + [o], pid)
  {
    OutstandingPush(log, o, pid);
  }

  lemma DescribesStamp(p: Pending, log: seq<Observation>, pid: Pid, now: Time)
    requires Describes(p, log, pid)
    ensures Describes(p.(sigkillTime := Some(now)), log, pid)
  {
  }

  lemma JustifiedPush(cfg: Config, log: seq<Observation>, o: Observation)
    requires KillsJustified(cfg, log)
    requires o.Attempt? && IsKill(o, o.entry.pid) ==> exists i: nat :: AnswersAt(cfg, log + [o], |log|, i)
    ensures KillsJustified(cfg, log + [o])
  {
    forall k | 0 <= k < |log + [o]| && (log + [o])[k].Attempt? && IsKill((log + [o])[k], (log + [o])[k].entry.pid)
      ensures exists i: nat :: AnswersAt(cfg, log + [o], k, i)
    {
      if k < |log| {
        var i: nat :| AnswersAt(cfg, log, k, i);
        assert AnswersAt(cfg, log + [o], k, i);
      }
    }
  }

  // ---------------------------------------------------------------- one step

  lemma TermStep(cfg: Config, born: iset<Instance>, s: State, op: Op)
    requires op.Term? && Safe(cfg, born, s) && OpShowsOnly(born, op)
    ensures Safe(cfg, born, Apply(cfg, s, op))
  {
    var t := Apply(cfg, s, op);
    var o := TermObservation(op.source, op.pid, op.name, op.category, op.reason, op.v);
    TermShows(cfg, s, op);
    JustifiedPush(cfg, s.log, o);
    hide Apply, TermObservation;
    forall pid
      ensures pid in t.exec.pending ==> Describes(t.exec.pending[pid], t.log, pid)
      ensures Outstanding(t.log, pid).Some? ==> pid in t.exec.pending
    {
      OutstandingPush(s.log, o, pid);
      if pid in s.exec.pending && !IsTerm(o, pid) {
        DescribesPush(s.exec.pending[pid], s.log, o, pid);
      }
    }
  }

  lemma KillAnswers(cfg: Config, s: State, op: Op)
    requires op.Kill? && PendingDescribesLog(s) && Allowed(cfg, s, op)
    requires SendSigkill(s.exec, op.pid, op.v).1.SignalKillSent?
    ensures var o := KillObservation(s, op.source, op.pid, op.name, op.category, op.v);
            AnswersAt(cfg, s.log + [o], |s.log|, Outstanding(s.log, op.pid).value)
  {
    hide KillObservation, Sustained, Trimmed;
    var p := s.exec.pending[op.pid];
    var i := Outstanding(s.log, op.pid).value;
    assert Describes(p, s.log, op.pid);
    var o := KillObservation(s, op.source, op.pid, op.name, op.category, op.v);
    assert SameTokens(s.log[i].hit.value, o.hit.value);
    assert IsOutstanding(s.log + [o], op.pid, i, |s.log|);
    assert op.source.Automated? ==> p.sigkillTime.None? && op.v.now - p.sigtermTime >= cfg.policy.Grace();
  }

  lemma KillStep(cfg: Config, born: iset<Instance>, s: State, op: Op)
    requires op.Kill? && Safe(cfg, born, s) && Allowed(cfg, s, op) && OpShowsOnly(born, op)
    ensures Safe(cfg, born, Apply(cfg, s, op))
  {
    hide Apply, Describes, KillObservation, SendSigkill, Allowed, KillsJustified, HitsBorn, Outstanding, OpShowsOnly;
    var t := Apply(cfg, s, op);
    var o := KillObservation(s, op.source, op.pid, op.name, op.category, op.v);
    KillShows(cfg, s, op);
    KillLog(cfg, born, s, op);
    SigkillStampsOnly(s.exec, op.pid, op.v);
    forall pid
      ensures pid in t.exec.pending ==> Describes(t.exec.pending[pid], t.log, pid)
      ensures Outstanding(t.log, pid).Some? ==> pid in t.exec.pending
    {
      OutstandingPush(s.log, o, pid);
      if pid in s.exec.pending {
        DescribesStamp(s.exec.pending[pid], s.log, pid, op.v.now);
        DescribesPush(t.exec.pending[pid], s.log, o, pid);
      }
    }
  }

  lemma KillLog(cfg: Config, born: iset<Instance>, s: State, op: Op)
    requires op.Kill? && Safe(cfg, born, s) && Allowed(cfg, s, op) && OpShowsOnly(born, op)
    ensures var o := KillObservation(s, op.source, op.pid, op.name, op.category, op.v);
            KillsJustified(cfg, s.log + [o]) && HitsBorn(born, s.log + [o])
  {
    var o := KillObservation(s, op.source, op.pid, op.name, op.category, op.v);
    SigkillHitIsLive(s.exec, op.pid, op.v, born);
    if o.hit.Some? {
      KillAnswers(cfg, s, op);
    }
    hide KillObservation, SendSigkill, Allowed, PendingDescribesLog;
    JustifiedPush(cfg, s.log, o);
  }

  lemma SigkillHitIsLive(e: Exec, pid: Pid, v: View, born: iset<Instance>)
    requires forall p <- v.live :: v.live[p] in born
    ensures HitOf(SendSigkill(e, pid, v).1).Some? ==> HitOf(SendSigkill(e, pid, v).1).value in born
  {
  }

  lemma ExitStep(cfg: Config, born: iset<Instance>, s: State, op: Op)
    requires op.Exit? && Safe(cfg, born, s)
    ensures Safe(cfg, born, Apply(cfg, s, op))
  {
    var t := Apply(cfg, s, op);
    ExitShows(cfg, s, op);
    var o := t.log[|s.log|];
    JustifiedPush(cfg, s.log, o);
    hide Apply, ReasonOf;
    forall pid
      ensures pid in t.exec.pending ==> Describes(t.exec.pending[pid], t.log, pid)
      ensures Outstanding(t.log, pid).Some? ==> pid in t.exec.pending
    {
      OutstandingPush(s.log, o, pid);
      if pid in t.exec.pending {
        DescribesPush(s.exec.pending[pid], s.log, o, pid);
      }
    }
  }

  lemma {:induction false} SafeAfter(cfg: Config, born: iset<Instance>, init: State, ops: seq<Op>)
    requires IsInitial(init) && LegalOps(cfg, born, init, ops)
    ensures Safe(cfg, born, After(cfg, init, ops))
    decreases |ops|
  {
    hide Allowed, Safe;
    if ops == [] {
      SafeInitially(cfg, born, init);
    } else {
      var n := |ops| - 1;
      var s := After(cfg, init, ops[..n]);
      SafeAfter(cfg, born, init, ops[..n]);
      SafeStep(cfg, born, s, ops[n]);
    }
  }

  lemma SafeInitially(cfg: Config, born: iset<Instance>, init: State)
    requires IsInitial(init)
    ensures Safe(cfg, born, init)
  {
  }

  lemma SafeStep(cfg: Config, born: iset<Instance>, s: State, op: Op)
    requires Safe(cfg, born, s) && Allowed(cfg, s, op) && OpShowsOnly(born, op)
    ensures Safe(cfg, born, Apply(cfg, s, op))
  {
    match op
    case Term(_, _, _, _, _, _, _) => TermStep(cfg, born, s, op);
    case Kill(_, _, _, _, _) => KillStep(cfg, born, s, op);
    case Exit(_, _, _) => ExitStep(cfg, born, s, op);
    case _ => QuietShows(cfg, s, op);
  }

  // ---------------------------------------------------------------- the theorem

  /** In every legal run, whatever the kernel does between the steps: each delivered SIGKILL answers
      an outstanding SIGTERM to its PID and hits the very instance that SIGTERM hit, provided start
      ticks tell the successive owners of a PID apart. An automated one comes no earlier than the
      grace period after its SIGTERM, and before any other SIGKILL for it. */
  lemma SigkillHitsItsSigterm(cfg: Config, born: iset<Instance>, init: State, events: seq<Event>)
    requires IsInitial(init) && LegalRun(cfg, init, events)
    requires StartsDistinct(born) && forall e <- events :: ShowsOnly(born, e)
    ensures var log := Run(cfg, init, events).log;
            forall k :: 0 <= k < |log| && log[k].Attempt? && IsKill(log[k], log[k].entry.pid) ==>
              exists i: nat :: AnswersAt(cfg, log, k, i) && log[i].hit == log[k].hit
  {
    var ops := RunOps(cfg, born, init, events);
    SafeAfter(cfg, born, init, ops);
    var log := Run(cfg, init, events).log;
    forall k | 0 <= k < |log| && log[k].Attempt? && IsKill(log[k], log[k].entry.pid)
      ensures exists i: nat :: AnswersAt(cfg, log, k, i) && log[i].hit == log[k].hit
    {
      var i: nat :| AnswersAt(cfg, log, k, i);
      assert log[i] in log && log[k] in log;
    }
  }

  /** The instance that the SIGTERM outstanding for `pid` hit. */
  ghost function Target(s: State, pid: Pid): Instance
    requires PendingDescribesLog(s) && pid in s.exec.pending
  {
    s.log[Outstanding(s.log, pid).value].hit.value
  }

  /** Why the start-tick law is there, and the only place that needs it. Wherever a run may be, whatever
      happened since the SIGTERM, and whether it is escalated or forced: a SIGKILL hits another process than
      the outstanding SIGTERM did exactly when no pidfd is held, the start tick was recorded and is read back
      equal, and the PID has a new owner with that very start tick. */
  lemma StrangerHitIff(cfg: Config, born: iset<Instance>, init: State, ops: seq<Op>, op: Op)
    requires IsInitial(init) && LegalOps(cfg, born, init, ops) && op.Kill? && op.pid in After(cfg, init, ops).exec.pending
    ensures var s := After(cfg, init, ops);
            var p, v := s.exec.pending[op.pid], op.v;
            var o := KillObservation(s, op.source, op.pid, op.name, op.category, v);
            && PendingDescribesLog(s)
            && var target := Target(s, op.pid);
            && target.pid == op.pid && (p.pidfd.Some? ==> p.pidfd.value == target)
            && (o.hit.Some? && o.hit.value != target
                <==> && p.pidfd.None? && p.starttime == Some(target.start)
                     && op.pid in v.live && v.live[op.pid] != target && v.live[op.pid].start == target.start
                     && op.pid in v.statReadable && op.pid in v.permitted)
  {
    hide After, LegalOps, KillsJustified, Outstanding;
    SafeAfter(cfg, born, init, ops);
    var s := After(cfg, init, ops);
    assert Describes(s.exec.pending[op.pid], s.log, op.pid);
  }

  /** With a pidfd the law is not needed: every SIGKILL that answers the SIGTERM, escalated or forced, hits
      the instance the pidfd pins, which is the one the SIGTERM hit, or nobody. */
  lemma PinnedKillIsExact(cfg: Config, born: iset<Instance>, init: State, ops: seq<Op>, op: Op)
    requires IsInitial(init) && LegalOps(cfg, born, init, ops) && op.Kill?
    requires var s := After(cfg, init, ops);
             op.pid in s.exec.pending && s.exec.pending[op.pid].pidfd.Some?
    ensures var s := After(cfg, init, ops);
            && PendingDescribesLog(s)
            && var o := KillObservation(s, op.source, op.pid, op.name, op.category, op.v);
            && o.hit in {None, Some(Target(s, op.pid))}
            && (o.hit.Some? <==> op.pid in op.v.live && op.v.live[op.pid] == Target(s, op.pid) && op.pid in op.v.permitted)
  {
    hide After, LegalOps, KillObservation, Target, PendingDescribesLog;
    StrangerHitIff(cfg, born, init, ops, op);
    PinnedOutcome(After(cfg, init, ops).exec, op.pid, op.v);
  }

  lemma PinnedOutcome(e: Exec, pid: Pid, v: View)
    requires pid in e.pending && e.pending[pid].pidfd.Some? && e.pending[pid].pidfd.value.pid == pid
    ensures var target := e.pending[pid].pidfd.value;
            HitOf(SendSigkill(e, pid, v).1) == if pid in v.live && v.live[pid] == target && pid in v.permitted then Some(target) else None
  {
  }

  /** The same for an operator's two steps, in terms of what the kernel showed at each. A manual SIGTERM that is
      delivered and the force-kill after it: the SIGKILL hits another process than the SIGTERM did
      exactly when no pidfd could be held, the start tick could be read both times, and the new owner
      of the PID started in the very tick the old one had started in. */
  lemma StrangerHitByTwoStepsIff(cfg: Config, s: State, pid: Pid, reason: Bytes, v1: View, v2: View)
    requires s.processes.Some? && pid in s.processes.value && KillByPid(v1, pid).Delivered?
    ensures var t := ManualKill(cfg, s, pid, reason, v1).0;
            var u := ForceKill(cfg, t, pid, v2).0;
            var target := v1.live[pid];
            && |u.log| == |s.log| + 2
            && u.log[|s.log|].Attempt? && u.log[|s.log|].hit == Some(target)
            && u.log[|s.log| + 1].Attempt?
            && (u.log[|s.log| + 1].hit.Some? && u.log[|s.log| + 1].hit != Some(target)
                <==> && pid !in v1.pidfdWorks && pid in v1.statReadable
                     && pid in v2.live && v2.live[pid] != target && v2.live[pid].start == target.start
                     && pid in v2.statReadable && pid in v2.permitted)
  {
    hide PushBounded, Tag, ForceIdentity, Ascii;
    var t := ManualKill(cfg, s, pid, reason, v1).0;
    assert t.log == s.log + [t.log[|s.log|]];
    assert t.exec.pending[pid].pidfd == PidfdOpen(v1, pid) && t.exec.pending[pid].starttime == ReadStarttime(v1, pid);
    assert forall p <- v2.live :: v2.live[p].pid == p;
    ForceKillObserves(cfg, t, pid, v2);
  }

  lemma ForceKillObserves(cfg: Config, s: State, pid: Pid, v: View)
    requires s.processes.Some?
    ensures var t := ForceKill(cfg, s, pid, v).0;
            && |t.log| == |s.log| + 1 && t.log[..|s.log|] == s.log
            && t.log[|s.log|].Attempt? && t.log[|s.log|].hit == HitOf(SendSigkill(s.exec, pid, v).1)
  {
    hide PushBounded, Tag, ForceIdentity, Ascii, SendSigkill, KillEntry;
  }
}
