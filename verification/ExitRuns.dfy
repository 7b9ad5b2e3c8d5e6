/** The exits of whole runs: every one that a tick drains is explained by what that tick brought and what the log shows
    before it, and every slot of the activity feed shows the reason of its own exit. */
module ExitRuns {
  import opened Options
  import opened Text
  import opened Kernel
  import opened Rings
  import opened Phrases
  import opened ExitClassify
  import opened ExitReasons
  import opened Protocol
  import opened Runs
  import opened Attributions
  import Discipline
  import Executor
  import Gates

  /** What the log shows for an exit: nothing classified without a category, else the reason that the facts demand, the
      tag being the text of the latest signal delivered to the PID since its last categorised exit. */
  ghost predicate ExitExplained(log: seq<Observation>, k: nat, x: ExitReport, dmesg: seq<Bytes>)
    requires k < |log|
  {
    var o := log[k];
    && o.Gone? && o.summary == x.summary
    && (x.summary.category.None? <==> o.reason.None?)
    && (o.reason.Some? ==>
          Explains(o.reason.value,
                   FactsOf(TagOf(log[..k], x.summary.pid), x.summary.signal, x.summary.exitCode, x.summary.pid, dmesg, x.stderr),
                   x.stderr))
  }

  lemma DrainExplains(cfg: Config, s: State, x: ExitReport, dmesg: seq<Bytes>, now: Time)
    requires TagsKnown(s)
    ensures var t := Drain(cfg, s, x, dmesg, now);
            && |t.log| == |s.log| + 1 && s.log <= t.log && ExitExplained(t.log, |s.log|, x, dmesg)
            && t.attribution == PushBounded(s.attribution, WireOf(t.log[|s.log|].reason), cfg.completedHistory)
  {
    var ctx := Context(s.killed, x, dmesg);
    var pid := x.summary.pid;
    ClassifierExplains(pid, x.summary.signal, x.summary.exitCode, ctx);
    assert ctx.governorReason == TagOf(s.log, pid);
    hide Classify, TagOf, Explains, BlamedFor, SaysCudaOom, PushBounded, WireOf;
    var t := Drain(cfg, s, x, dmesg, now);
    assert t.log[..|s.log|] == s.log;
    assert FactsOf(ctx.governorReason, x.summary.signal, x.summary.exitCode, pid, ctx.dmesgLines, x.stderr)
        == FactsOf(ctx.governorReason, x.summary.signal, x.summary.exitCode, pid, dmesg, x.stderr);
  }

  /** From `from` on the log has the first `n` exits of the sample, all explained. */
  ghost predicate AllExplained(log: seq<Observation>, from: nat, sample: Sample, n: nat)
    requires n <= |sample.exits|
  {
    |log| == from + n && forall i :: 0 <= i < n ==> ExitExplained(log, from + i, sample.exits[i], sample.dmesg)
  }

  lemma OneMoreExplained(log: seq<Observation>, longer: seq<Observation>, from: nat, sample: Sample, n: nat)
    requires n < |sample.exits| && AllExplained(log, from, sample, n)
    requires |longer| == |log| + 1 && log <= longer && ExitExplained(longer, |log|, sample.exits[n], sample.dmesg)
    ensures AllExplained(longer, from, sample, n + 1)
  {
    hide ExitExplained;
    forall i | 0 <= i < n + 1
      ensures ExitExplained(longer, from + i, sample.exits[i], sample.dmesg)
    {
      if i < n {
        StaysExplained(log, longer, from + i, sample.exits[i], sample.dmesg);
      }
    }
  }

  lemma NoneExplained(log: seq<Observation>, sample: Sample)
    ensures AllExplained(log, |log|, sample, 0)
  {
  }

  lemma StaysExplained(log: seq<Observation>, longer: seq<Observation>, k: nat, x: ExitReport, dmesg: seq<Bytes>)
    requires k < |log| && log <= longer && ExitExplained(log, k, x, dmesg)
    ensures ExitExplained(longer, k, x, dmesg)
  {
    assert longer[..k] == log[..k];
    hide Explains, TagOf;
  }

  lemma {:induction false} DrainedExplains(cfg: Config, s: State, sample: Sample, now: Time, n: nat)
    requires n <= |sample.exits| && Attributed(cfg, s)
    ensures var t := Drained(cfg, s, sample, now, n);
            s.log <= t.log && Attributed(cfg, t) && AllExplained(t.log, |s.log|, sample, n)
  {
    hide Drain, AllExplained, ExitExplained, Attributed;
    if n == 0 {
      NoneExplained(s.log, sample);
    } else {
      var before, x := Drained(cfg, s, sample, now, n - 1), sample.exits[n - 1];
      DrainedExplains(cfg, s, sample, now, n - 1);
      ExitStep(cfg, before, x, sample.dmesg, now);
      TagsOf(cfg, before);
      DrainExplains(cfg, before, x, sample.dmesg, now);
      OneMoreExplained(before.log, Drain(cfg, before, x, sample.dmesg, now).log, |s.log|, sample, n - 1);
    }
  }

  lemma TagsOf(cfg: Config, s: State)
    requires Attributed(cfg, s)
    ensures TagsKnown(s)
  {
  }

  lemma JudgingLogsNothing(cfg: Config, s: State, input: TickInput)
    requires input.sample.Some?
    ensures Tick(cfg, s, input).log
         == Drained(cfg, Tune(s, input), input.sample.value, input.now, |input.sample.value.exits|).log
  {
    hide Drained, Executor.Evaluate, Project, BreachingPids, Refresh;
  }

  /** In every run, every exit that a completed tick drains is explained: one of eight reasons, each if and only if
      the signal, the exit code, the tag and the lines of that tick say so. */
  lemma RunExplainsExits(cfg: Config, init: State, events: seq<Event>, input: TickInput)
    requires IsInitial(init) && LegalRun(cfg, init, events + [TickEvent(input)]) && input.sample.Some?
    ensures var s, t := Run(cfg, init, events), Run(cfg, init, events + [TickEvent(input)]);
            s.log <= t.log && AllExplained(t.log, |s.log|, input.sample.value, |input.sample.value.exits|)
  {
    var s := Run(cfg, init, events);
    Discipline.RunSnoc(cfg, init, events, TickEvent(input));
    RunAttributed(cfg, init, events);
    hide Run, LegalRun, AllExplained, Attributed, Drained, Tick;
    TunedAttributed(cfg, s, input);
    DrainedExplains(cfg, Tune(s, input), input.sample.value, input.now, |input.sample.value.exits|);
    JudgingLogsNothing(cfg, s, input);
    Gates.StepIsTick(cfg, s, input);
  }

  lemma TunedAttributed(cfg: Config, s: State, input: TickInput)
    requires Attributed(cfg, s)
    ensures Attributed(cfg, Tune(s, input)) && Tune(s, input).log == s.log
  {
    QuietStep(cfg, s, Tune(s, input));
  }

  // ---------------------------------------------------------------- what the feed shows

  /** The pair of strings for each reason. */
  ghost predicate Shows(a: Attribution, reason: ExitReason) {
    match reason
    case CleanExit => a.kind == Ascii("clean") && a.detail == None
    case Segfault => a.kind == Ascii("segfault") && a.detail == None
    case Unknown => a.kind == Ascii("unknown") && a.detail == None
    case GovernorKill(text) => a.kind == Ascii("governor") && a.detail == Some(text)
    case CudaError(msg) => a.kind == Ascii("cuda") && a.detail == msg
    case UserSignal(n) => a.kind == Ascii("signal") && a.detail.Some? && IsNumbered(a.detail.value, Ascii("signal "), n)
    case Crash(code) => a.kind == Ascii("crash") && a.detail.Some? && IsNumbered(a.detail.value, Ascii("exit "), code)
    case OutOfMemory(ram, vram) =>
      && a.kind == Ascii("oom")
      && (ram && !vram ==> a.detail == Some(Ascii("RAM")))
      && (vram && !ram ==> a.detail == Some(Ascii("GPU memory")))
      && (ram && vram ==> a.detail == Some(Ascii("RAM and GPU memory")))
  }

  /** The word, then the number in decimal, with a sign if it is negative. */
  ghost predicate IsNumbered(t: Bytes, word: Bytes, n: int) {
    exists digits: Bytes ::
      && AllDigits(digits) && Worth(digits) == (if n < 0 then -n else n)
      && t == word + if n < 0 then [0x2D] + digits else digits
  }

  lemma NumberShown(word: Bytes, n: int)
    ensures IsNumbered(word + SignedDecimal(n), word, n)
  {
    var m := if n < 0 then -n else n;
    DecimalWorth(m);
    assert Ascii("-") == [0x2D];
    assert SignedDecimal(n) == if n < 0 then [0x2D] + Decimal(m) else Decimal(m);
    hide Decimal, Ascii, Worth, SignedDecimal;
  }

  lemma WireShows(reason: ExitReason)
    requires reason.OutOfMemory? ==> reason.ram || reason.vram
    ensures Shows(ToWire(reason), reason)
  {
    if reason.UserSignal? {
      NumberShown(Ascii("signal "), reason.signal);
    } else if reason.Crash? {
      NumberShown(Ascii("exit "), reason.exitCode);
    }
    hide Ascii, SignedDecimal, IsNumbered;
  }

  // ---------------------------------------------------------------- the slots of the feed

  lemma {:induction false} SlotsFromLog(log: seq<Observation>, i: nat)
    requires AllClassified(log) && i < |Wires(log)| && Wires(log)[i].Some?
    ensures exists k :: 0 <= k < |log| && log[k].Gone? && log[k].summary == Summaries(log)[i] && log[k].reason.Some?
                        && Shows(Wires(log)[i].value, log[k].reason.value)
  {
    var n := |log| - 1;
    PrefixClassified(log);
    hide AllClassified, ClassifiedByLog, Shows;
    if i < |Wires(log[..n])| {
      SlotsFromLog(log[..n], i);
      var k :| 0 <= k < n && log[..n][k].Gone? && log[..n][k].summary == Summaries(log[..n])[i]
               && log[..n][k].reason.Some? && Shows(Wires(log[..n])[i].value, log[..n][k].reason.value);
      assert log[k] == log[..n][k];
    } else {
      ReasonShows(log, n);
    }
  }

  lemma PrefixClassified(log: seq<Observation>)
    requires log != [] && AllClassified(log)
    ensures AllClassified(log[..|log| - 1])
  {
    hide ClassifiedByLog;
    var n := |log| - 1;
    forall k | 0 <= k < n && log[..n][k].Gone?
      ensures ClassifiedByLog(log[..n], k)
    {
      assert ClassifiedByLog(log, k);
      SameBefore(log, n, k);
    }
  }

  lemma SameBefore(log: seq<Observation>, n: nat, k: nat)
    requires k < n <= |log| && log[k].Gone? && ClassifiedByLog(log, k)
    ensures ClassifiedByLog(log[..n], k)
  {
    assert log[..n][..k] == log[..k];
    hide Classify, TagOf;
  }

  lemma ReasonShows(log: seq<Observation>, k: nat)
    requires k < |log| && log[k].Gone? && AllClassified(log)
    ensures log[k].reason.Some? ==> Shows(ToWire(log[k].reason.value), log[k].reason.value)
  {
    hide Shows, ToWire, TagOf;
    assert ClassifiedByLog(log, k);
    if log[k].reason.Some? {
      var x := log[k].summary;
      var ctx: ExitContext :| log[k].reason == Some(Classify(x.pid, x.signal, x.exitCode, ctx));
      ClassifierExplains(x.pid, x.signal, x.exitCode, ctx);
      WireShows(log[k].reason.value);
    }
  }

  /** In every legal run each slot of the feed that holds a pair holds the one for the reason its own exit was given. */
  lemma FeedShowsReasons(cfg: Config, init: State, events: seq<Event>, i: nat)
    requires IsInitial(init) && LegalRun(cfg, init, events)
    requires i < |Run(cfg, init, events).attribution| && Run(cfg, init, events).attribution[i].Some?
    ensures var s := Run(cfg, init, events);
            && |s.completed| == |s.attribution|
            && exists k :: 0 <= k < |s.log| && s.log[k].Gone? && s.log[k].summary == s.completed[i] && s.log[k].reason.Some?
                           && Shows(s.attribution[i].value, s.log[k].reason.value)
  {
    RunAttributed(cfg, init, events);
    hide Run, LegalRun, Attributed;
    FeedOf(cfg, Run(cfg, init, events), i);
  }

  lemma FeedOf(cfg: Config, s: State, i: nat)
    requires Attributed(cfg, s) && i < |s.attribution| && s.attribution[i].Some?
    ensures |s.completed| == |s.attribution|
    ensures exists k :: 0 <= k < |s.log| && s.log[k].Gone? && s.log[k].summary == s.completed[i] && s.log[k].reason.Some?
                        && Shows(s.attribution[i].value, s.log[k].reason.value)
  {
    hide Wires, Summaries, Shows, AllClassified, TagsKnown, Entries;
    var from := |Wires(s.log)| - |s.attribution|;
    assert s.attribution[i] == Wires(s.log)[from + i] && s.completed[i] == Summaries(s.log)[from + i];
    hide Suffix;
    SlotsFromLog(s.log, from + i);
  }
}
