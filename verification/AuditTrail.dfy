/** What the audit entries of a run say, and whom they name, told from the tables, the pending entries and
    what the kernel showed, without the functions that write them. */
module AuditTrail {
  import opened Options
  import opened Text
  import opened Kernel
  import opened Rings
  import opened Model
  import opened Executor
  import opened ExitClassify
  import opened Protocol
  import opened Runs
  import opened SigkillSafety
  import opened Attributions
  import Gates
  import Discipline

  /** Name and category are those of the first row with the PID. */
  ghost predicate NamedByRow(rows: seq<Row>, e: AuditEntry) {
    exists row :: FirstRow(rows, e.pid, row) && e.name == row.name && e.category == Some(row.category)
  }

  /** Name and category of an escalation: its row's, or without a row those of the pending entry. */
  ghost predicate NamedByRowOrPending(rows: seq<Row>, pending: map<Pid, Pending>, e: AuditEntry) {
    || NamedByRow(rows, e)
    || (&& NoRow(rows, e.pid) && e.pid in pending
        && e.name == pending[e.pid].name && e.category == Some(pending[e.pid].category))
  }

  // ---------------------------------------------------------------- one SIGKILL

  /** A held pidfd is one of this PID. */
  predicate Fits(p: Pending, pid: Pid) {
    p.pidfd.Some? ==> p.pidfd.value.pid == pid
  }

  /** The process that the entry's tokens stand for still owns the PID, as far as they can tell. */
  ghost predicate There(pending: map<Pid, Pending>, pid: Pid, v: View) {
    && pid in pending && pid in v.live
    && match pending[pid].pidfd
       case Some(target) => v.live[pid] == target
       case None => pid in v.statReadable && pending[pid].starttime == Some(v.live[pid].start)
  }

  /** The three ends of a SIGKILL, and what each leaves: only an OS error leaves the entry to be tried again. */
  lemma SigkillEnds(e: Exec, pid: Pid, v: View)
    requires pid in e.pending ==> Fits(e.pending[pid], pid)
    ensures var (f, outcome) := SendSigkill(e, pid, v);
            && (outcome.SignalKillSent? <==> There(e.pending, pid, v) && pid in v.permitted)
            && (outcome.SignalKillSent? ==> outcome.to == v.live[pid])
            && (outcome.SignalError? <==> There(e.pending, pid, v) && pid !in v.permitted)
            && (outcome.PidReusedAborted? <==> !There(e.pending, pid, v))
            && (if outcome.SignalError? || pid !in e.pending then f == e
                else f == e.(pending := e.pending[pid := e.pending[pid].(sigkillTime := Some(v.now))]))
  {
  }

  /** What the audit entry of a SIGKILL says. */
  ghost predicate KillSays(e: AuditEntry, source: KillSource, pid: Pid, there: bool, permitted: bool) {
    && e.source == source && e.pid == pid && !e.action.AuditSigterm?
    && (e.action.AuditPidReused? <==> !there)
    && (e.success <==> there && permitted)
    && e.reason == if source.Manual? then
                     Ascii("operator force-kill via TUI (kill_confirm Waiting ") + [0xE2, 0x86, 0x92] + Ascii(" Enter)")
                   else if !there then Ascii("SIGTERM grace expired; SIGKILL refused by PID-reuse guard")
                   else if permitted then Ascii("SIGTERM grace expired; escalated to SIGKILL")
                   else Ascii("SIGTERM grace expired; SIGKILL OS call failed")
  }

  lemma SlaySays(cfg: Config, s: State, source: KillSource, pid: Pid, name: Bytes, category: Option<AICategory>, v: View)
    requires pid in s.exec.pending ==> Fits(s.exec.pending[pid], pid)
    ensures var t := Slay(cfg, s, source, pid, name, category, v);
            var there := There(s.exec.pending, pid, v);
            && |t.log| == |s.log| + 1 && s.log <= t.log
            && var o := t.log[|s.log|];
            && o.Attempt? && o.time == v.now
            && KillSays(o.entry, source, pid, there, pid in v.permitted)
            && o.entry.name == name && o.entry.category == category
            && o.hit == (if there && pid in v.permitted then Some(v.live[pid]) else None)
  {
    var outcome := SendSigkill(s.exec, pid, v).1;
    SigkillEnds(s.exec, pid, v);
    EntrySays(source, pid, name, category, outcome, There(s.exec.pending, pid, v), pid in v.permitted);
    hide SendSigkill, There, PushBounded, Tag, Ascii, KillEntry, KillSays;
    assert Slay(cfg, s, source, pid, name, category, v).log
        == s.log + [Attempt(v.now, KillEntry(source, pid, name, category, outcome), HitOf(outcome))];
  }

  lemma EntrySays(source: KillSource, pid: Pid, name: Bytes, category: Option<AICategory>, outcome: Sigkill,
                  there: bool, permitted: bool)
    requires outcome.SignalKillSent? <==> there && permitted
    requires outcome.PidReusedAborted? <==> !there
    ensures var e := KillEntry(source, pid, name, category, outcome);
            KillSays(e, source, pid, there, permitted) && e.name == name && e.category == category
  {
    hide Ascii;
  }

  // ---------------------------------------------------------------- escalations

  /** The observation of one escalation, by the tables and entries its pass started the escalations with. */
  ghost predicate EscalationSays(o: Observation, rows: seq<Row>, pending: map<Pid, Pending>, pid: Pid, v: View) {
    && o.Attempt? && o.time == v.now
    && KillSays(o.entry, Automated, pid, There(pending, pid, v), pid in v.permitted)
    && NamedByRowOrPending(rows, pending, o.entry)
  }

  lemma IdentityNames(s: State, pid: Pid, e: AuditEntry)
    requires pid in s.exec.pending && e.pid == pid && e.name == Identity(s, pid).0 && e.category == Identity(s, pid).1
    ensures NamedByRowOrPending(s.annotated, s.exec.pending, e)
  {
    FindRowFinds(s.annotated, pid);
    hide FindRow, FirstRow;
    var row := FindRow(s.annotated, pid);
    if row.Some? {
      assert FirstRow(s.annotated, e.pid, row.value);
    }
  }

  lemma EscalateOneSays(cfg: Config, s: State, pid: Pid, v: View)
    requires pid in s.exec.pending && Fits(s.exec.pending[pid], pid)
    ensures var t := EscalateOne(cfg, s, pid, v);
            && |t.log| == |s.log| + 1 && s.log <= t.log
            && EscalationSays(t.log[|s.log|], s.annotated, s.exec.pending, pid, v)
  {
    SlaySays(cfg, s, Automated, pid, Identity(s, pid).0, Identity(s, pid).1, v);
    hide Slay, There, KillSays, Identity, NamedByRowOrPending;
    IdentityNames(s, pid, EscalateOne(cfg, s, pid, v).log[|s.log|].entry);
  }

  /** An entry that no earlier escalation touched is still described by the entries of the start. */
  lemma SaysByStart(o: Observation, rows: seq<Row>, later: map<Pid, Pending>, start: map<Pid, Pending>, pid: Pid, v: View)
    requires EscalationSays(o, rows, later, pid, v)
    requires pid in later && pid in start && later[pid] == start[pid]
    ensures EscalationSays(o, rows, start, pid, v)
  {
    hide NamedByRow;
  }

  lemma UntouchedYet(cfg: Config, s: State, order: seq<Pid>, os: nat -> View, base: nat, pid: Pid)
    requires pid in s.exec.pending && pid !in order
    ensures var t := Escalate(cfg, s, order, os, base);
            pid in t.exec.pending && t.exec.pending[pid] == s.exec.pending[pid] && t.annotated == s.annotated
  {
    EscalateTouchesItsOrder(cfg, s, order, os, base);
    Discipline.EscalateKeepsPlan(cfg, s, order, os, base);
    hide Escalate;
  }

  ghost predicate AllSay(log: seq<Observation>, at: nat, rows: seq<Row>, pending: map<Pid, Pending>, order: seq<Pid>,
                         os: nat -> View, base: nat)
  {
    && |log| == at + |order|
    && forall j :: 0 <= j < |order| ==> EscalationSays(log[at + j], rows, pending, order[j], os(base + j))
  }

  lemma OneMoreSays(log: seq<Observation>, longer: seq<Observation>, at: nat, rows: seq<Row>, pending: map<Pid, Pending>,
                    order: seq<Pid>, os: nat -> View, base: nat)
    requires order != [] && AllSay(log, at, rows, pending, order[..|order| - 1], os, base)
    requires |longer| == |log| + 1 && log <= longer
    requires EscalationSays(longer[|log|], rows, pending, order[|order| - 1], os(base + |order| - 1))
    ensures AllSay(longer, at, rows, pending, order, os, base)
  {
    hide EscalationSays;
    var n := |order| - 1;
    forall j | 0 <= j < |order|
      ensures EscalationSays(longer[at + j], rows, pending, order[j], os(base + j))
    {
      if j < n {
        assert longer[at + j] == log[at + j] && order[..n][j] == order[j];
      }
    }
  }

  lemma NothingSaid(log: seq<Observation>, rows: seq<Row>, pending: map<Pid, Pending>, os: nat -> View, base: nat)
    ensures AllSay(log, |log|, rows, pending, [], os, base)
  {
  }

  lemma {:induction false} EscalationsSay(cfg: Config, s: State, order: seq<Pid>, os: nat -> View, base: nat)
    requires Gates.TokensFit(s.exec) && (forall i :: 0 <= i < |order| ==> order[i] in s.exec.pending)
    requires forall i, j :: 0 <= i < j < |order| ==> order[i] != order[j]
    ensures var t := Escalate(cfg, s, order, os, base);
            && s.log <= t.log
            && AllSay(t.log, |s.log|, s.annotated, s.exec.pending, order, os, base)
    decreases |order|
  {
    hide EscalateOne, EscalationSays, AllSay;
    if order == [] {
      NothingSaid(s.log, s.annotated, s.exec.pending, os, base);
    } else {
      var n := |order| - 1;
      var t, pid := Escalate(cfg, s, order[..n], os, base), order[n];
      EscalationsSay(cfg, s, order[..n], os, base);
      assert pid !in order[..n];
      UntouchedYet(cfg, s, order[..n], os, base, pid);
      EscalateOneSays(cfg, t, pid, os(base + n));
      var u := EscalateOne(cfg, t, pid, os(base + n));
      SaysByStart(u.log[|t.log|], s.annotated, t.exec.pending, s.exec.pending, pid, os(base + n));
      OneMoreSays(t.log, u.log, |s.log|, s.annotated, s.exec.pending, order, os, base);
    }
  }

  // ---------------------------------------------------------------- a whole pass

  lemma TurnNames(cfg: Config, s: State, c: Decision, start: Time, v: View)
    ensures var log := Actuate(cfg, s, c, start, v).log;
            log == s.log
            || exists o: Observation :: log == s.log + [o] && SigtermSays(o, s.annotated, c, v)
  {
    FindRowFinds(s.annotated, c.pid);
    hide PushBounded, Tag, Trim, FindRow, FirstRow;
    var log := Actuate(cfg, s, c, start, v).log;
    if log != s.log {
      assert FirstRow(s.annotated, c.pid, FindRow(s.annotated, c.pid).value);
      assert log == s.log + [log[|s.log|]] && SigtermSays(log[|s.log|], s.annotated, c, v);
    }
  }

  /** The observation of an automated SIGTERM to a candidate. */
  ghost predicate SigtermSays(o: Observation, rows: seq<Row>, c: Decision, v: View) {
    && o.Attempt? && o.time == v.now
    && o.entry.action.AuditSigterm? && o.entry.source.Automated? && o.entry.pid == c.pid && o.entry.reason == c.reason
    && NamedByRow(rows, o.entry)
    && o.hit == (if c.pid in v.live && c.pid in v.permitted then Some(v.live[c.pid]) else None)
    && o.entry.success == o.hit.Some?
  }

  /** From `from` to `to` the log shows SIGTERMs to candidates. */
  ghost predicate SigtermsSay(log: seq<Observation>, from: nat, s: State, os: nat -> View) {
    var c := Candidates(s.decisions);
    && from <= |log|
    && forall k :: from <= k < |log| ==> exists i: nat :: i < |c| && SigtermSays(log[k], s.annotated, c[i], os(i + 1))
  }

  lemma SigtermsPush(log: seq<Observation>, o: Observation, from: nat, s: State, os: nat -> View, i: nat)
    requires SigtermsSay(log, from, s, os)
    requires i < |Candidates(s.decisions)| && SigtermSays(o, s.annotated, Candidates(s.decisions)[i], os(i + 1))
    ensures SigtermsSay(log + [o], from, s, os)
  {
    hide SigtermSays, Candidates;
    forall k | from <= k < |log + [o]|
      ensures exists j: nat :: j < |Candidates(s.decisions)|
                               && SigtermSays((log + [o])[k], s.annotated, Candidates(s.decisions)[j], os(j + 1))
    {
      assert k < |log| ==> (log + [o])[k] == log[k];
    }
  }

  lemma {:induction false} ActuatedSays(cfg: Config, s: State, os: nat -> View, n: nat)
    requires n <= |Candidates(s.decisions)|
    ensures var t := Actuated(cfg, s, os, n);
            && s.log <= t.log
            && SigtermsSay(t.log, |s.log|, s, os)
  {
    hide Actuate, SigtermsSay;
    if n > 0 {
      ActuatedSays(cfg, s, os, n - 1);
      SameRowsAtTurn(cfg, s, os, n - 1);
      OneTurnSays(cfg, s, Actuated(cfg, s, os, n - 1), os, n - 1);
    } else {
      NoTurn(cfg, s, os);
      NoSigtermYet(s, os);
    }
  }

  lemma NoSigtermYet(s: State, os: nat -> View)
    ensures SigtermsSay(s.log, |s.log|, s, os)
  {
  }

  lemma OneTurnSays(cfg: Config, s: State, before: State, os: nat -> View, i: nat)
    requires i < |Candidates(s.decisions)| && before.annotated == s.annotated && SigtermsSay(before.log, |s.log|, s, os)
    ensures var after := Actuate(cfg, before, Candidates(s.decisions)[i], os(0).now, os(i + 1));
            before.log <= after.log && SigtermsSay(after.log, |s.log|, s, os)
  {
    hide Actuate, SigtermsSay, SigtermSays, Candidates;
    var c := Candidates(s.decisions)[i];
    var after := Actuate(cfg, before, c, os(0).now, os(i + 1));
    TurnNames(cfg, before, c, os(0).now, os(i + 1));
    if after.log != before.log {
      var o: Observation :| after.log == before.log + [o] && SigtermSays(o, before.annotated, c, os(i + 1));
      SigtermsPush(before.log, o, |s.log|, s, os, i);
    }
  }

  lemma SameRowsAtTurn(cfg: Config, s: State, os: nat -> View, n: nat)
    requires n <= |Candidates(s.decisions)|
    ensures Actuated(cfg, s, os, n).annotated == s.annotated
  {
    NoTurn(cfg, s, os);
    Discipline.ActuatedKeepsPending(cfg, s, os, 0, n);
    hide Actuated;
  }

  /** What a pass writes, in every legal run. First come SIGTERMs to candidates, each named by the first
      annotated row with its PID and giving the candidate's reason. Then comes one SIGKILL attempt for each
      visited entry, named by its row or without one by the entry, with the action, success and text that go
      with who owned the PID at that instant and whether it may be signalled. */
  lemma PassWrites(cfg: Config, init: State, events: seq<Event>, os: nat -> View, order: seq<Pid>)
    requires IsInitial(init) && LegalRun(cfg, init, events) && cfg.autoActuate
    requires Legal(cfg, Run(cfg, init, events), PassEvent(os, order))
    ensures var s := Run(cfg, init, events);
            var n := |Candidates(s.decisions)|;
            var t, log := Actuated(cfg, s, os, n), Pass(cfg, s, os, order).log;
            && s.log <= t.log <= log
            && SigtermsSay(t.log, |s.log|, s, os)
            && AllSay(log, |t.log|, s.annotated, t.exec.pending, order, os, n + 2)
  {
    hide Run, LegalRun, Legal, Candidates, Actuated, Escalate, Pass, Gates.TokensFit, PendingDescribesLog, GraceExpired,
         SigtermsSay, AllSay;
    Gates.AfterCandidates(cfg, init, events, os, order);
    var s := Run(cfg, init, events);
    var n := |Candidates(s.decisions)|;
    var t := Actuated(cfg, s, os, n);
    ActuatedSays(cfg, s, os, n);
    SameRowsAtTurn(cfg, s, os, n);
    Gates.PassIs(cfg, s, os, order);
    EscalationsSay(cfg, t, order, os, n + 2);
  }

  lemma NoTurn(cfg: Config, s: State, os: nat -> View)
    ensures Actuated(cfg, s, os, 0) == s
  {
  }

  // ---------------------------------------------------------------- the operator

  /** An operator's SIGTERM: which of the four answers, by whom the kernel shows, and what is recorded. */
  lemma ManualKillEnds(cfg: Config, s: State, pid: Pid, reason: Bytes, v: View)
    ensures var (t, outcome) := ManualKill(cfg, s, pid, reason, v);
            var tracked := s.processes.Some? && pid in s.processes.value;
            var delivered := pid in v.live && pid in v.permitted;
            && (outcome.NoSnapshot? <==> s.processes.None?)
            && (outcome.NotFound? <==> s.processes.Some? && !tracked)
            && (outcome.Signalled? <==> tracked && delivered)
            && (outcome.Failed? <==> tracked && !delivered)
            && (if !tracked then t == s
                else
                  var lc := s.processes.value[pid];
                  && t.log == s.log + [Attempt(v.now,
                       AuditEntry(AuditSigterm, Manual, pid, lc.name, lc.category, reason, delivered),
                       if delivered then Some(v.live[pid]) else None)]
                  && (if !delivered then t.exec == s.exec && t.killed == s.killed
                      else
                        && t.killed == s.killed[pid := reason]
                        && t.exec.pending.Keys == s.exec.pending.Keys + {pid}
                        && var p := t.exec.pending[pid];
                        && p.name == lc.name && p.sigtermTime == v.now && p.sigkillTime.None?
                        && p.category == if lc.category.Some? then lc.category.value else NotAi))
  {
    hide PushBounded;
  }

  /** The operator's force-kill: answers, and whom the entry names: the tracked process, else the pending entry, else
      nobody known. */
  lemma ForceKillEnds(cfg: Config, s: State, pid: Pid, v: View)
    requires pid in s.exec.pending ==> Fits(s.exec.pending[pid], pid)
    ensures var (t, outcome) := ForceKill(cfg, s, pid, v);
            var there := There(s.exec.pending, pid, v);
            && (outcome.NoSnapshot? <==> s.processes.None?)
            && !outcome.NotFound?
            && (outcome.Signalled? <==> s.processes.Some? && there && pid in v.permitted)
            && (outcome.Refused? <==> s.processes.Some? && !there)
            && (outcome.Failed? <==> s.processes.Some? && there && pid !in v.permitted)
            && (if s.processes.None? then t == s
                else
                  && |t.log| == |s.log| + 1 && s.log <= t.log
                  && var o := t.log[|s.log|];
                  && o.Attempt? && KillSays(o.entry, Manual, pid, there, pid in v.permitted)
                  && o.hit == (if there && pid in v.permitted then Some(v.live[pid]) else None)
                  && ForceNames(s.processes.value, s.exec.pending, o.entry))
  {
    SigkillEnds(s.exec, pid, v);
    if s.processes.Some? {
      SlaySays(cfg, s, Manual, pid, ForceIdentity(s, pid).0, ForceIdentity(s, pid).1, v);
      hide SendSigkill, There, Slay, KillSays;
    }
  }

  predicate ForceNames(processes: map<Pid, Lifecycle>, pending: map<Pid, Pending>, e: AuditEntry) {
    if e.pid in processes then e.name == processes[e.pid].name && e.category == processes[e.pid].category
    else if e.pid in pending then e.name == pending[e.pid].name && e.category == Some(pending[e.pid].category)
    else e.name == Ascii("<unknown>") && e.category == None
  }

  // ---------------------------------------------------------------- pending entries and tags

  /** A pending entry bears the name, and the category if there was one, of the SIGTERM it stands for. */
  ghost predicate PendingNamed(s: State) {
    forall pid <- s.exec.pending :: Outstanding(s.log, pid).Some? ==>
      var e := s.log[Outstanding(s.log, pid).value].entry;
      s.exec.pending[pid].name == e.name && (e.category.Some? ==> s.exec.pending[pid].category == e.category.value)
  }

  lemma OtherObservation(s: State, t: State, o: Observation)
    requires PendingNamed(s) && t.log == s.log + [o] && !(o.Attempt? && o.hit.Some? && o.entry.action.AuditSigterm?)
    requires forall pid <- t.exec.pending :: pid in s.exec.pending && !IsGone(o, pid)
               && t.exec.pending[pid].name == s.exec.pending[pid].name
               && t.exec.pending[pid].category == s.exec.pending[pid].category
    ensures PendingNamed(t)
  {
    hide Outstanding;
    forall pid <- t.exec.pending
      ensures Outstanding(t.log, pid) == Outstanding(s.log, pid)
    {
      OutstandingPush(s.log, o, pid);
    }
  }

  lemma TermNamed(cfg: Config, s: State, op: Op)
    requires op.Term? && PendingNamed(s)
    ensures PendingNamed(Apply(cfg, s, op))
  {
    var t := Apply(cfg, s, op);
    var o := TermObservation(op.source, op.pid, op.name, op.category, op.reason, op.v);
    TermShows(cfg, s, op);
    assert o.entry.name == op.name && o.entry.category == op.category;
    hide Apply, TermObservation, Outstanding;
    if o.hit.None? {
      OtherObservation(s, t, o);
    } else {
      forall pid <- t.exec.pending
        ensures Outstanding(t.log, pid) == if pid == op.pid then Some(|s.log|) else Outstanding(s.log, pid)
        ensures pid != op.pid ==> pid in s.exec.pending
      {
        OutstandingPush(s.log, o, pid);
      }
    }
  }

  lemma NamedStep(cfg: Config, s: State, op: Op)
    requires PendingNamed(s)
    ensures PendingNamed(Apply(cfg, s, op))
  {
    var t := Apply(cfg, s, op);
    match op
    case Term(_, _, _, _, _, _, _) => TermNamed(cfg, s, op);
    case Kill(source, pid, name, category, v) =>
      KillShows(cfg, s, op);
      SigkillStampsOnly(s.exec, pid, v);
      hide Apply, SendSigkill, KillObservation, PendingNamed;
      OtherObservation(s, t, KillObservation(s, source, pid, name, category, v));
    case Exit(x, dmesg, now) =>
      ExitShows(cfg, s, op);
      hide Apply, PendingNamed;
      OtherObservation(s, t, Gone(now, x.summary, ReasonOf(s.killed, x, dmesg)));
    case _ => QuietShows(cfg, s, op);
  }

  lemma {:induction false} NamedAfter(cfg: Config, born: iset<Instance>, init: State, ops: seq<Op>)
    requires IsInitial(init) && LegalOps(cfg, born, init, ops)
    ensures PendingNamed(After(cfg, init, ops))
    decreases |ops|
  {
    if ops == [] {
    } else {
      hide PendingNamed, Apply, Allowed;
      var n := |ops| - 1;
      NamedAfter(cfg, born, init, ops[..n]);
      NamedStep(cfg, After(cfg, init, ops[..n]), ops[n]);
    }
  }

  /** In every legal run each pending entry bears name and category of the outstanding SIGTERM's audit entry. */
  lemma PendingNamesItsSigterm(cfg: Config, init: State, events: seq<Event>, pid: Pid)
    requires IsInitial(init) && LegalRun(cfg, init, events) && pid in Run(cfg, init, events).exec.pending
    ensures var s := Run(cfg, init, events);
            exists i: nat :: i < |s.log| && IsOutstanding(s.log, pid, i, |s.log|)
              && s.exec.pending[pid].name == s.log[i].entry.name
              && (s.log[i].entry.category.Some? ==> s.exec.pending[pid].category == s.log[i].entry.category.value)
  {
    hide Run, LegalRun, LegalOps, After, Outstanding, KillsJustified;
    var ops := RunOps(cfg, Anyone(), init, events);
    NamedAfter(cfg, Anyone(), init, ops);
    SafeAfter(cfg, Anyone(), init, ops);
    var s := Run(cfg, init, events);
    assert Describes(s.exec.pending[pid], s.log, pid);
    assert IsOutstanding(s.log, pid, Outstanding(s.log, pid).value, |s.log|);
  }

  /** The reason a governor kill is given: the text of the latest delivered SIGTERM, or the one that goes with the
      source of the latest delivered SIGKILL. */
  lemma GovernorKillText(cfg: Config, init: State, events: seq<Event>, k: nat, i: nat)
    requires IsInitial(init) && LegalRun(cfg, init, events)
    requires k < |Run(cfg, init, events).log| && Run(cfg, init, events).log[k].Gone?
    requires var log := Run(cfg, init, events).log;
             log[k].summary.category.Some? && LastHit(log, log[k].summary.pid, i, k)
    ensures var log := Run(cfg, init, events).log;
            var e := log[i].entry;
            && (e.action.AuditSigterm? ==> log[k].reason == Some(GovernorKill(e.reason)))
            && (e.action.AuditSigkill? && e.source.Automated? ==>
                  log[k].reason == Some(GovernorKill(Ascii("SIGKILL after SIGTERM grace"))))
            && (e.action.AuditSigkill? && e.source.Manual? ==>
                  log[k].reason == Some(GovernorKill(Ascii("force-kill via SIGKILL"))))
  {
    GovernorKillIffSignalled(cfg, init, events, k, Tag(Run(cfg, init, events).log[i].entry));
    hide Run, LegalRun, Ascii, LastHit;
  }

  // ---------------------------------------------------------------- whom a pass visits, by the log

  /** A SIGKILL attempt that is not to be repeated: it got through, or it was refused. An OS error is neither. */
  predicate IsSettled(o: Observation, pid: Pid) {
    o.Attempt? && o.entry.pid == pid && !o.entry.action.AuditSigterm? && (o.entry.success || o.entry.action.AuditPidReused?)
  }

  /** An entry is stamped if and only if some attempt since its SIGTERM was settled. */
  ghost predicate StampedIffSettled(s: State) {
    forall pid <- s.exec.pending :: Outstanding(s.log, pid).Some? ==>
      var i := Outstanding(s.log, pid).value;
      s.exec.pending[pid].sigkillTime.Some? <==> exists j :: i < j < |s.log| && IsSettled(s.log[j], pid)
  }

  lemma SettledPush(log: seq<Observation>, o: Observation, pid: Pid, i: nat)
    requires i < |log|
    ensures (exists j :: i < j < |log + [o]| && IsSettled((log + [o])[j], pid))
            <==> (exists j :: i < j < |log| && IsSettled(log[j], pid)) || IsSettled(o, pid)
  {
    var all := log + [o];
    hide IsSettled;
    assert all[|log|] == o && forall j :: 0 <= j < |log| ==> all[j] == log[j];
  }

  lemma StampPush(s: State, t: State, o: Observation, pid: Pid)
    requires StampedIffSettled(s) && t.log == s.log + [o] && pid in s.exec.pending && pid in t.exec.pending
    requires !IsTerm(o, pid) && !IsGone(o, pid)
    requires t.exec.pending[pid].sigkillTime.Some? <==> s.exec.pending[pid].sigkillTime.Some? || IsSettled(o, pid)
    ensures Outstanding(t.log, pid).Some? ==>
              var i := Outstanding(t.log, pid).value;
              t.exec.pending[pid].sigkillTime.Some? <==> exists j :: i < j < |t.log| && IsSettled(t.log[j], pid)
  {
    OutstandingPush(s.log, o, pid);
    hide Outstanding, IsSettled;
    if Outstanding(s.log, pid).Some? {
      SettledPush(s.log, o, pid, Outstanding(s.log, pid).value);
    }
  }

  lemma StampTerm(cfg: Config, s: State, op: Op)
    requires op.Term? && StampedIffSettled(s)
    ensures StampedIffSettled(Apply(cfg, s, op))
  {
    var t := Apply(cfg, s, op);
    var o := TermObservation(op.source, op.pid, op.name, op.category, op.reason, op.v);
    TermShows(cfg, s, op);
    hide Apply, TermObservation, Outstanding, StampedIffSettled;
    forall pid <- t.exec.pending
      ensures Outstanding(t.log, pid).Some? ==>
                var i := Outstanding(t.log, pid).value;
                t.exec.pending[pid].sigkillTime.Some? <==> exists j :: i < j < |t.log| && IsSettled(t.log[j], pid)
    {
      if IsTerm(o, pid) {
        OutstandingPush(s.log, o, pid);
      } else {
        StampPush(s, t, o, pid);
      }
    }
    assert StampedIffSettled(t) by {
      Stamped(t);
    }
  }

  lemma Stamped(t: State)
    requires forall pid <- t.exec.pending :: Outstanding(t.log, pid).Some? ==>
               var i := Outstanding(t.log, pid).value;
               t.exec.pending[pid].sigkillTime.Some? <==> exists j :: i < j < |t.log| && IsSettled(t.log[j], pid)
    ensures StampedIffSettled(t)
  {
  }

  lemma KillStamps(cfg: Config, s: State, op: Op)
    requires op.Kill? && (op.pid in s.exec.pending ==> Fits(s.exec.pending[op.pid], op.pid))
    ensures var t := Apply(cfg, s, op);
            && t.exec.pending.Keys == s.exec.pending.Keys && |t.log| == |s.log| + 1 && t.log == s.log + [t.log[|s.log|]]
            && var o := t.log[|s.log|];
            && o.Attempt? && !o.entry.action.AuditSigterm?
            && forall pid <- s.exec.pending ::
                 t.exec.pending[pid].sigkillTime.Some? <==> s.exec.pending[pid].sigkillTime.Some? || IsSettled(o, pid)
  {
    SlaySays(cfg, s, op.source, op.pid, op.name, op.category, op.v);
    SigkillEnds(s.exec, op.pid, op.v);
    KillShows(cfg, s, op);
    hide SendSigkill, There, Slay, Ascii, KillObservation;
    var t := Apply(cfg, s, op);
    assert t.log == s.log + [t.log[|s.log|]];
  }

  lemma StampStep(cfg: Config, s: State, op: Op)
    requires StampedIffSettled(s) && PendingDescribesLog(s)
    ensures StampedIffSettled(Apply(cfg, s, op))
  {
    var t := Apply(cfg, s, op);
    match op
    case Term(_, _, _, _, _, _, _) => StampTerm(cfg, s, op);
    case Kill(_, _, _, _, _) =>
      Gates.DescribedTokensFit(s);
      KillStamps(cfg, s, op);
      hide Apply, StampedIffSettled, IsSettled;
      forall pid <- t.exec.pending
        ensures Outstanding(t.log, pid).Some? ==>
                  var i := Outstanding(t.log, pid).value;
                  t.exec.pending[pid].sigkillTime.Some? <==> exists j :: i < j < |t.log| && IsSettled(t.log[j], pid)
      {
        StampPush(s, t, t.log[|s.log|], pid);
      }
      Stamped(t);
    case Exit(x, dmesg, now) =>
      ExitShows(cfg, s, op);
      var o := Gone(now, x.summary, ReasonOf(s.killed, x, dmesg));
      hide Apply, StampedIffSettled;
      forall pid <- t.exec.pending
        ensures Outstanding(t.log, pid).Some? ==>
                  var i := Outstanding(t.log, pid).value;
                  t.exec.pending[pid].sigkillTime.Some? <==> exists j :: i < j < |t.log| && IsSettled(t.log[j], pid)
      {
        StampPush(s, t, o, pid);
      }
      Stamped(t);
    case _ => QuietShows(cfg, s, op);
  }

  lemma {:induction false} StampAfter(cfg: Config, born: iset<Instance>, init: State, ops: seq<Op>)
    requires IsInitial(init) && LegalOps(cfg, born, init, ops)
    ensures StampedIffSettled(After(cfg, init, ops))
    decreases |ops|
  {
    if ops == [] {
    } else {
      hide StampedIffSettled, Apply, Allowed, PendingDescribesLog, KillsJustified, HitsBorn;
      var n := |ops| - 1;
      StampAfter(cfg, born, init, ops[..n]);
      SafeAfter(cfg, born, init, ops[..n]);
      StampStep(cfg, After(cfg, init, ops[..n]), ops[n]);
    }
  }

  /** A SIGTERM is outstanding, at least the grace period old, and no SIGKILL for it has been settled. */
  ghost predicate Overdue(log: seq<Observation>, pid: Pid, now: Time, graceSecs: nat) {
    exists i: nat :: IsOutstanding(log, pid, i, |log|) && now - log[i].time >= graceSecs * 1_000_000_000
                     && forall j :: i < j < |log| ==> !IsSettled(log[j], pid)
  }

  lemma OutstandingUnique(log: seq<Observation>, pid: Pid, i: nat)
    requires IsOutstanding(log, pid, i, |log|)
    ensures Outstanding(log, pid) == Some(i)
  {
    if Outstanding(log, pid).Some? {
      var k := Outstanding(log, pid).value;
      assert IsOutstanding(log, pid, k, |log|);
      assert !(i < k) && !(k < i);
    }
  }

  lemma ExpiredIffOverdue(s: State, policy: Policy, pid: Pid, now: Time)
    requires PendingDescribesLog(s) && StampedIffSettled(s)
    ensures pid in s.exec.pending && GraceExpired(s.exec.pending[pid], policy, now) <==> Overdue(s.log, pid, now, policy.graceSecs)
  {
    hide Outstanding, IsSettled;
    if Overdue(s.log, pid, now, policy.graceSecs) {
      var i: nat :| IsOutstanding(s.log, pid, i, |s.log|) && now - s.log[i].time >= policy.graceSecs * 1_000_000_000
                    && forall j :: i < j < |s.log| ==> !IsSettled(s.log[j], pid);
      OutstandingUnique(s.log, pid, i);
      assert Describes(s.exec.pending[pid], s.log, pid);
    }
    if pid in s.exec.pending {
      assert Describes(s.exec.pending[pid], s.log, pid);
      assert IsOutstanding(s.log, pid, Outstanding(s.log, pid).value, |s.log|);
    }
  }

  /** Whom a pass escalates, told from the log alone, in every legal run: exactly the PIDs that are overdue once the candidates
      have had their turns. */
  lemma VisitedIffOverdue(cfg: Config, init: State, events: seq<Event>, os: nat -> View, order: seq<Pid>, pid: Pid)
    requires IsInitial(init) && LegalRun(cfg, init, events) && cfg.autoActuate
    requires Legal(cfg, Run(cfg, init, events), PassEvent(os, order))
    ensures var s := Run(cfg, init, events);
            var t := Actuated(cfg, s, os, |Candidates(s.decisions)|);
            pid in order <==> Overdue(t.log, pid, os(1 + |Candidates(s.decisions)|).now, cfg.policy.graceSecs)
  {
    hide LegalOps, After, Actuated, Run, LegalRun, Candidates, PendingDescribesLog, KillsJustified, StampedIffSettled, GraceExpired,
         Overdue;
    var s := Run(cfg, init, events);
    var n := |Candidates(s.decisions)|;
    var past := RunOps(cfg, Anyone(), init, events);
    var turns := ActuatedOps(cfg, Anyone(), s, os, n);
    Concat(cfg, Anyone(), init, past, turns);
    SafeAfter(cfg, Anyone(), init, past + turns);
    StampAfter(cfg, Anyone(), init, past + turns);
    Gates.AfterCandidates(cfg, init, events, os, order);
    ExpiredIffOverdue(Actuated(cfg, s, os, n), cfg.policy, pid, os(1 + n).now);
  }
}
