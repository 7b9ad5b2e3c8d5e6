/** Exits over whole runs: which are blamed on the governor, and what the bounded rings keep. */
module Attributions {
  import opened Options
  import opened Text
  import opened Kernel
  import opened Rings
  import opened ExitClassify
  import opened Protocol
  import opened Runs

  /** A signal to this PID that was delivered, automated or manual, SIGTERM or SIGKILL. */
  predicate IsHit(o: Observation, pid: Pid) {
    o.Attempt? && o.hit.Some? && o.entry.pid == pid
  }

  /** A drained exit of this PID that had a category. */
  predicate IsCategorisedExit(o: Observation, pid: Pid) {
    o.Gone? && o.summary.pid == pid && o.summary.category.Some?
  }

  /** The signal at `i` is the latest one delivered to `pid` before `k`, and no categorised exit of
      that PID came after it. */
  ghost predicate LastHit(log: seq<Observation>, pid: Pid, i: nat, k: nat) {
    && i < k <= |log| && IsHit(log[i], pid)
    && forall j :: i < j < k ==> !IsHit(log[j], pid) && !IsCategorisedExit(log[j], pid)
  }

  /** The tag such a signal leaves, read off the log alone. */
  function TagOf(log: seq<Observation>, pid: Pid): (r: Option<Bytes>)
    ensures r.Some? <==> exists i: nat :: LastHit(log, pid, i, |log|)
    ensures forall i: nat :: LastHit(log, pid, i, |log|) ==> r == Some(Tag(log[i].entry))
  {
    if log == [] then None
    else
      var n := |log| - 1;
      assert forall i: nat :: LastHit(log, pid, i, |log|) ==> i == n || LastHit(log[..n], pid, i, n);
      if IsHit(log[n], pid) then
        assert LastHit(log, pid, n, |log|);
        Some(Tag(log[n].entry))
      else if IsCategorisedExit(log[n], pid) then None
      else
        assert forall i: nat :: LastHit(log[..n], pid, i, n) ==> LastHit(log, pid, i, |log|);
        TagOf(log[..n], pid)
  }

  /** The exit at `k` was classified, by the classifier of ExitClassify, with the governor's part of
      the context taken from the log before it; an uncategorised exit was not classified. */
  ghost predicate ClassifiedByLog(log: seq<Observation>, k: nat)
    requires k < |log| && log[k].Gone?
  {
    var x := log[k].summary;
    if x.category.None? then log[k].reason == None
    else
      exists ctx: ExitContext ::
        && ctx.governorReason == TagOf(log[..k], x.pid)
        && (ctx.killedByGovernor <==> ctx.governorReason.Some?)
        && log[k].reason == Some(Classify(x.pid, x.signal, x.exitCode, ctx))
  }

  ghost predicate AllClassified(log: seq<Observation>) {
    forall k :: 0 <= k < |log| && log[k].Gone? ==> ClassifiedByLog(log, k)
  }

  function Entries(log: seq<Observation>): seq<AuditEntry> {
    if log == [] then []
    else
      var n := |log| - 1;
      Entries(log[..n]) + if log[n].Attempt? then [log[n].entry] else []
  }

  /** All exits ever drained, and the attribution each was given, in step. */
  function Summaries(log: seq<Observation>): seq<Summary> {
    if log == [] then []
    else
      var n := |log| - 1;
      Summaries(log[..n]) + if log[n].Gone? then [log[n].summary] else []
  }

  function Wires(log: seq<Observation>): (r: seq<Option<Attribution>>)
    ensures |r| == |Summaries(log)|
  {
    if log == [] then []
    else
      var n := |log| - 1;
      Wires(log[..n]) + if log[n].Gone? then [WireOf(log[n].reason)] else []
  }

  ghost predicate ExitsKept(s: State, cap: nat) {
    s.completed == Suffix(Summaries(s.log), cap) && s.attribution == Suffix(Wires(s.log), cap)
  }

  ghost predicate TagsKnown(s: State) {
    && (forall pid <- s.killed :: TagOf(s.log, pid) == Some(s.killed[pid]))
    && (forall pid :: TagOf(s.log, pid).Some? ==> pid in s.killed)
  }

  ghost predicate Attributed(cfg: Config, s: State) {
    && TagsKnown(s) && AllClassified(s.log)
    && s.audit == Suffix(Entries(s.log), cfg.auditHistory)
    && ExitsKept(s, cfg.completedHistory)
  }

  // ---------------------------------------------------------------- one more observation

  lemma TagPush(log: seq<Observation>, o: Observation, pid: Pid)
    ensures TagOf(log + [o], pid)
            == if IsHit(o, pid) then Some(Tag(o.entry)) else if IsCategorisedExit(o, pid) then None else TagOf(log, pid)
  {
    assert (log + [o])[..|log|] == log;
  }

  lemma ListsPush(log: seq<Observation>, o: Observation)
    ensures Entries(log + [o]) == if o.Attempt? then Entries(log) + [o.entry] else Entries(log)
    ensures Summaries(log + [o]) == if o.Gone? then Summaries(log) + [o.summary] else Summaries(log)
    ensures Wires(log + [o]) == if o.Gone? then Wires(log) + [WireOf(o.reason)] else Wires(log)
  {
    assert (log + [o])[..|log|] == log;
  }

  lemma ClassifiedPush(log: seq<Observation>, o: Observation)
    requires AllClassified(log) && (o.Gone? ==> ClassifiedByLog(log + [o], |log|))
    ensures AllClassified(log + [o])
  {
    forall k | 0 <= k < |log| && (log + [o])[k].Gone?
      ensures ClassifiedByLog(log + [o], k)
    {
      assert ClassifiedByLog(log, k) && (log + [o])[..k] == log[..k];
    }
  }

  lemma SuffixPush<T>(s: seq<T>, x: T, cap: nat)
    ensures PushBounded(Suffix(s, cap), x, cap) == Suffix(s + [x], cap)
  {
  }

  // ---------------------------------------------------------------- one step

  /** An attempted signal: the tag if it was delivered, and one more audit entry. */
  lemma AttemptStep(cfg: Config, s: State, t: State, o: Observation)
    requires Attributed(cfg, s) && o.Attempt? && o.entry.success == o.hit.Some?
    requires t.log == s.log + [o] && t.completed == s.completed && t.attribution == s.attribution
    requires t.killed == if o.entry.success then s.killed[o.entry.pid := Tag(o.entry)] else s.killed
    requires t.audit == PushBounded(s.audit, o.entry, cfg.auditHistory)
    ensures Attributed(cfg, t)
  {
    hide Tag, TagOf, Suffix;
    ListsPush(s.log, o);
    ClassifiedPush(s.log, o);
    SuffixPush(Entries(s.log), o.entry, cfg.auditHistory);
    forall pid
      ensures pid in t.killed ==> TagOf(t.log, pid) == Some(t.killed[pid])
      ensures TagOf(t.log, pid).Some? ==> pid in t.killed
    {
      TagPush(s.log, o, pid);
    }
  }

  lemma ExitTags(s: State, x: ExitReport, reason: Option<ExitReason>, now: Time)
    requires TagsKnown(s) && (reason.Some? <==> x.summary.category.Some?)
    ensures TagsKnown(s.(killed := if reason.Some? then s.killed - {x.summary.pid} else s.killed,
                         log := s.log + [Gone(now, x.summary, reason)]))
  {
    hide TagOf;
    forall pid
      ensures TagOf(s.log + [Gone(now, x.summary, reason)], pid)
           == if IsCategorisedExit(Gone(now, x.summary, reason), pid) then None else TagOf(s.log, pid)
    {
      TagPush(s.log, Gone(now, x.summary, reason), pid);
    }
  }

  lemma ExitClassified(s: State, x: ExitReport, dmesg: seq<Bytes>, now: Time)
    requires TagsKnown(s)
    ensures var log := s.log + [Gone(now, x.summary, ReasonOf(s.killed, x, dmesg))];
            ClassifiedByLog(log, |s.log|)
  {
    hide Classify, TagOf;
    var log := s.log + [Gone(now, x.summary, ReasonOf(s.killed, x, dmesg))];
    assert log[..|s.log|] == s.log;
    var ctx := Context(s.killed, x, dmesg);
    assert ctx.governorReason == TagOf(s.log, x.summary.pid);
  }

  lemma ExitsKeptPush(s: State, x: Summary, reason: Option<ExitReason>, now: Time, cap: nat)
    requires ExitsKept(s, cap)
    ensures ExitsKept(s.(completed := PushBounded(s.completed, x, cap),
                         attribution := PushBounded(s.attribution, WireOf(reason), cap),
                         log := s.log + [Gone(now, x, reason)]), cap)
  {
    hide WireOf, Suffix, PushBounded;
    ListsPush(s.log, Gone(now, x, reason));
    SuffixPush(Summaries(s.log), x, cap);
    SuffixPush(Wires(s.log), WireOf(reason), cap);
  }

  lemma ExitStep(cfg: Config, s: State, x: ExitReport, dmesg: seq<Bytes>, now: Time)
    requires Attributed(cfg, s)
    ensures Attributed(cfg, Drain(cfg, s, x, dmesg, now))
  {
    var reason := ReasonOf(s.killed, x, dmesg);
    var o := Gone(now, x.summary, reason);
    ExitClassified(s, x, dmesg, now);
    hide ClassifiedByLog, TagsKnown, ExitsKept, Suffix, WireOf, Context, Classify, PushBounded;
    ExitTags(s, x, reason, now);
    ExitsKeptPush(s, x.summary, reason, now, cfg.completedHistory);
    ListsPush(s.log, o);
    ClassifiedPush(s.log, o);
    var t := Drain(cfg, s, x, dmesg, now);
    SameTags(t, s.(killed := t.killed, log := t.log));
    SameExits(t, s.(completed := t.completed, attribution := t.attribution, log := t.log), cfg.completedHistory);
  }

  lemma SameTags(s: State, t: State)
    requires s.killed == t.killed && s.log == t.log
    ensures TagsKnown(s) == TagsKnown(t)
  {
  }

  lemma SameExits(s: State, t: State, cap: nat)
    requires s.completed == t.completed && s.attribution == t.attribution && s.log == t.log
    ensures ExitsKept(s, cap) == ExitsKept(t, cap)
  {
  }

  lemma AttributedStep(cfg: Config, s: State, op: Op)
    requires Attributed(cfg, s)
    ensures Attributed(cfg, Apply(cfg, s, op))
  {
    hide Attributed, PushBounded, Tag;
    var t := Apply(cfg, s, op);
    match op
    case Term(source, pid, name, category, fallback, reason, v) =>
      AttemptStep(cfg, s, t, TermObservation(source, pid, name, category, reason, v));
    case Kill(source, pid, name, category, v) =>
      AttemptStep(cfg, s, t, KillObservation(s, source, pid, name, category, v));
    case Exit(x, dmesg, now) => ExitStep(cfg, s, x, dmesg, now);
    case _ =>
      QuietShows(cfg, s, op);
      QuietStep(cfg, s, t);
  }

  lemma QuietStep(cfg: Config, s: State, t: State)
    requires Attributed(cfg, s)
    requires t.log == s.log && t.killed == s.killed && t.audit == s.audit
    requires t.completed == s.completed && t.attribution == s.attribution
    ensures Attributed(cfg, t)
  {
  }

  lemma {:induction false} AttributedAfter(cfg: Config, born: iset<Instance>, init: State, ops: seq<Op>)
    requires IsInitial(init) && LegalOps(cfg, born, init, ops)
    ensures Attributed(cfg, After(cfg, init, ops))
    decreases |ops|
  {
    if ops == [] {
    } else {
      hide Attributed, Apply, Allowed;
      var n := |ops| - 1;
      AttributedAfter(cfg, born, init, ops[..n]);
      AttributedStep(cfg, After(cfg, init, ops[..n]), ops[n]);
    }
  }

  // ---------------------------------------------------------------- the theorems

  lemma RunAttributed(cfg: Config, init: State, events: seq<Event>)
    requires IsInitial(init) && LegalRun(cfg, init, events)
    ensures Attributed(cfg, Run(cfg, init, events))
  {
    hide Attributed, LegalOps, After, Run, LegalRun;
    var ops := RunOps(cfg, Anyone(), init, events);
    AttributedAfter(cfg, Anyone(), init, ops);
  }

  /** In every legal run, a categorised exit is recorded as a governor kill with reason `r` if and
      only if some signal was delivered to its PID since that PID's previous categorised exit, and
      `r` is the tag of the latest one. Refused and failed signals never count, and an exit without
      a category neither is classified nor uses the tag up. */
  lemma GovernorKillIffSignalled(cfg: Config, init: State, events: seq<Event>, k: nat, r: Bytes)
    requires IsInitial(init) && LegalRun(cfg, init, events)
    requires k < |Run(cfg, init, events).log| && Run(cfg, init, events).log[k].Gone?
    ensures var log := Run(cfg, init, events).log;
            var x := log[k].summary;
            && (x.category.None? <==> log[k].reason.None?)
            && (log[k].reason == Some(GovernorKill(r))
                <==> x.category.Some? && exists i: nat :: LastHit(log, x.pid, i, k) && r == Tag(log[i].entry))
  {
    RunAttributed(cfg, init, events);
    hide Run, LegalRun, ClassifiedByLog;
    assert ClassifiedByLog(Run(cfg, init, events).log, k);
    KillReasonFromLog(Run(cfg, init, events).log, k, r);
  }

  lemma KillReasonFromLog(log: seq<Observation>, k: nat, r: Bytes)
    requires k < |log| && log[k].Gone? && ClassifiedByLog(log, k)
    ensures var x := log[k].summary;
            && (x.category.None? <==> log[k].reason.None?)
            && (log[k].reason == Some(GovernorKill(r))
                <==> x.category.Some? && exists i: nat :: LastHit(log, x.pid, i, k) && r == Tag(log[i].entry))
  {
    hide Classify, Tag;
    var x := log[k].summary;
    if x.category.Some? {
      TagBefore(log, x.pid, k);
      var ctx: ExitContext :|
        && ctx.governorReason == TagOf(log[..k], x.pid)
        && (ctx.killedByGovernor <==> ctx.governorReason.Some?)
        && log[k].reason == Some(Classify(x.pid, x.signal, x.exitCode, ctx));
      hide TagOf, LastHit;
      GovernorOwnsItsKills(x.pid, x.signal, x.exitCode, ctx);
      assert log[k].reason == Some(GovernorKill(r)) <==> TagOf(log[..k], x.pid) == Some(r);
    }
  }

  lemma TagBefore(log: seq<Observation>, pid: Pid, k: nat)
    requires k <= |log|
    ensures TagOf(log[..k], pid).Some? <==> exists i: nat :: LastHit(log, pid, i, k)
    ensures forall i: nat :: LastHit(log, pid, i, k) ==> TagOf(log[..k], pid) == Some(Tag(log[i].entry))
  {
    hide Tag, TagOf;
    assert forall i: nat :: LastHit(log, pid, i, k) <==> LastHit(log[..k], pid, i, k);
  }

  /** In every legal run the three rings are exactly the newest part of the unbounded history: the
      audit ring of all attempts, and, slot by slot in lock-step, the completed exits with their
      attributions, a slot being present exactly when its exit had a category. */
  lemma RingsAreSuffixes(cfg: Config, init: State, events: seq<Event>)
    requires IsInitial(init) && LegalRun(cfg, init, events)
    ensures var s := Run(cfg, init, events);
            && s.audit == Suffix(Entries(s.log), cfg.auditHistory)
            && s.completed == Suffix(Summaries(s.log), cfg.completedHistory)
            && s.attribution == Suffix(Wires(s.log), cfg.completedHistory)
            && |s.completed| == |s.attribution| <= cfg.completedHistory
            && forall i :: 0 <= i < |s.attribution| ==> (s.attribution[i].Some? <==> s.completed[i].category.Some?)
  {
    hide Run, LegalRun;
    RunAttributed(cfg, init, events);
    var s := Run(cfg, init, events);
    KeptInStep(s, cfg.completedHistory);
  }

  /** Two suffixes of lists in step are in step. */
  lemma KeptInStep(s: State, cap: nat)
    requires AllClassified(s.log) && ExitsKept(s, cap)
    ensures |s.completed| == |s.attribution| <= cap
    ensures forall i :: 0 <= i < |s.attribution| ==> (s.attribution[i].Some? <==> s.completed[i].category.Some?)
  {
    PresentIffCategorised(s.log);
    hide AllClassified, Wires, Summaries;
    var wires, exits := Wires(s.log), Summaries(s.log);
    var from := if |wires| <= cap then 0 else |wires| - cap;
    forall i | 0 <= i < |s.attribution|
      ensures s.attribution[i] == wires[from + i] && s.completed[i] == exits[from + i]
    {
    }
  }

  lemma {:induction false} PresentIffCategorised(log: seq<Observation>)
    requires AllClassified(log)
    ensures forall i :: 0 <= i < |Wires(log)| ==> (Wires(log)[i].Some? <==> Summaries(log)[i].category.Some?)
  {
    hide TagOf, Classify;
    if log != [] {
      var n := |log| - 1;
      forall k | 0 <= k < n && log[..n][k].Gone?
        ensures ClassifiedByLog(log[..n], k)
      {
        assert ClassifiedByLog(log, k) && log[..n][..k] == log[..k];
      }
      PresentIffCategorised(log[..n]);
      assert log[n].Gone? ==> ClassifiedByLog(log, n);
    }
  }
}
