/** The governor executor (src/governor/executor.rs, mod.rs, policy.rs): decisions, the sliding
    kill window, SIGTERM with captured identity, and the identity-checked SIGKILL. */
module Executor {
  import opened Options
  import opened Text
  import opened Kernel
  import opened Model
  import opened Sorting

  datatype KillAction =
    | Whitelisted
    | AlreadyExited
    | AlreadyPending
    | SignalTermSent
    | RateLimited
    | Skipped

  datatype Policy = Policy(
    allow: set<Bytes>,
    block: set<Bytes>,
    killByDefault: bool,
    graceSecs: nat,
    maxKills: nat,
    windowSecs: nat)
  {
    function Grace(): Time { graceSecs * SECOND }

    function Window(): Time { windowSecs * SECOND }

    /** Allow list first, then block list, then the default for AI categories. */
    predicate WantsKill(name: Bytes, category: Option<AICategory>) {
      && name !in allow
      && (name in block || (category.Some? && category.value != NotAi && killByDefault))
    }
  }

  /** An outstanding SIGTERM with the two identity tokens captured before it was sent. */
  datatype Pending = Pending(
    name: Bytes,
    category: AICategory,
    sigtermTime: Time,
    sigkillTime: Option<Time>,
    pidfd: Option<Instance>,
    starttime: Option<nat>)

  datatype Lifecycle = Lifecycle(name: Bytes, category: Option<AICategory>, exited: bool)

  datatype Decision = Decision(pid: Pid, action: KillAction, reason: Bytes)

  /** The mutable part of the executor. */
  datatype Exec = Exec(pending: map<Pid, Pending>, recent: seq<Time>)

  // ---------------------------------------------------------------- the sliding window

  function Trim(recent: seq<Time>, cutoff: Time): seq<Time> {
    if recent == [] || recent[0] >= cutoff then recent else Trim(recent[1..], cutoff)
  }

  function Trimmed(e: Exec, policy: Policy, now: Time): Exec {
    e.(recent := Trim(e.recent, now - policy.Window()))
  }

  predicate Exceeded(e: Exec, policy: Policy) {
    policy.maxKills != 0 && |e.recent| >= policy.maxKills
  }

  // ---------------------------------------------------------------- decisions

  function Join(parts: seq<Bytes>): Bytes {
    if parts == [] then []
    else if |parts| == 1 then parts[0]
    else parts[0] + Ascii(",") + Join(parts[1..])
  }

  /** The threshold projection a tick hands to the executor. */
  datatype Breaches = Breaches(vram: set<Pid>, ram: set<Pid>, hot: bool)

  function MarkedReason(b: Breaches, pid: Pid): Bytes {
    Ascii("AI process marked for kill: triggers=[")
    + Join((if pid in b.vram then [Ascii("vram")] else [])
           + (if pid in b.ram then [Ascii("ram")] else [])
           + (if b.hot then [Ascii("host-thermal")] else []))
    + Ascii("]")
  }

  /** Exited, then pending, then policy, then breach, then the advisory rate limit. */
  function Decide(e: Exec, policy: Policy, pid: Pid, lc: Lifecycle, b: Breaches): Decision {
    if lc.exited then Decision(pid, AlreadyExited, Ascii("process already exited"))
    else if pid in e.pending then Decision(pid, AlreadyPending, Ascii("pending SIGTERM not yet reaped"))
    else if !policy.WantsKill(lc.name, lc.category) then Decision(pid, Whitelisted, Ascii("allowed by policy"))
    else if pid !in b.vram && pid !in b.ram && !b.hot then Decision(pid, Skipped, Ascii("not breaching VRAM/RAM/thermal"))
    else if Exceeded(e, policy) then Decision(pid, RateLimited, Ascii("rate limit ADVISORY"))
    else Decision(pid, SignalTermSent, MarkedReason(b, pid))
  }

  /** One decision per tracked PID, lowest PID first, against the trimmed window. */
  function Evaluate(e: Exec, policy: Policy, processes: map<Pid, Lifecycle>, b: Breaches)
    : seq<Decision>
  {
    var pids := Ascending(processes.Keys);
    seq(|pids|, i requires 0 <= i < |pids| => Decide(e, policy, pids[i], processes[pids[i]], b))
  }

  // ---------------------------------------------------------------- signals

  /** Identity is captured, the signal is sent, and only a delivered signal is recorded: one more
      entry in the window and a fresh pending entry, replacing any older one for the PID. */
  function SendSigterm(e: Exec, pid: Pid, name: Bytes, category: AICategory, v: View): (Exec, Option<Instance>) {
    match KillByPid(v, pid)
    case Delivered(to) =>
      (Exec(e.pending[pid := Pending(name, category, v.now, None, PidfdOpen(v, pid), ReadStarttime(v, pid))],
            e.recent + [v.now]),
       Some(to))
    case _ => (e, None)
  }

  datatype Sigkill = SignalKillSent(to: Instance) | PidReusedAborted | SignalError

  /** The SIGKILL that refuses to hit a stranger. */
  function SendSigkill(e: Exec, pid: Pid, v: View): (Exec, Sigkill) {
    if pid !in e.pending then (e, PidReusedAborted)
    else
      var p := e.pending[pid];
      var stamped := e.(pending := e.pending[pid := p.(sigkillTime := Some(v.now))]);
      if p.pidfd.None? && (p.starttime.None? || ReadStarttime(v, pid) != p.starttime) then
        (stamped, PidReusedAborted)
      else
        match if p.pidfd.Some? then KillByPidfd(v, p.pidfd.value) else KillByPid(v, pid)
        case Delivered(to) => (stamped, SignalKillSent(to))
        case NoSuchProcess => (stamped, PidReusedAborted)
        case OsError => (e, SignalError)
  }

  /** `should_send_kill`: no SIGKILL attempt settled yet, and the grace period is over. */
  predicate GraceExpired(p: Pending, policy: Policy, now: Time) {
    p.sigkillTime.None? && now - p.sigtermTime >= policy.Grace()
  }

  function Expired(e: Exec, policy: Policy, now: Time): set<Pid> {
    set pid | pid in e.pending && GraceExpired(e.pending[pid], policy, now)
  }

  /** `order` visits every member of `s` exactly once; the source walks a hash map. */
  ghost predicate Enumerates(order: seq<Pid>, s: set<Pid>) {
    && (forall x :: x in order <==> x in s)
    && (forall i, j :: 0 <= i < j < |order| ==> order[i] != order[j])
  }

  datatype Escalated = Escalated(exec: Exec, results: seq<(Pid, Sigkill)>)

  /** Escalates the entries of `order` one after the other; the k-th system call sees `os(base + k)`. */
  function EscalateAll(e: Exec, order: seq<Pid>, os: nat -> View, base: nat): (r: Escalated)
    ensures |r.results| == |order|
  {
    if order == [] then Escalated(e, [])
    else
      var n := |order| - 1;
      var prev := EscalateAll(e, order[..n], os, base);
      var (exec, outcome) := SendSigkill(prev.exec, order[n], os(base + n));
      Escalated(exec, prev.results + [(order[n], outcome)])
  }

  lemma EscalateAllExtend(e: Exec, order: seq<Pid>, pid: Pid, os: nat -> View, base: nat)
    ensures var prev := EscalateAll(e, order, os, base);
            var (exec, outcome) := SendSigkill(prev.exec, pid, os(base + |order|));
            EscalateAll(e, order + [pid], os, base) == Escalated(exec, prev.results + [(pid, outcome)])
  {
    assert (order + [pid])[..|order|] == order;
  }

  lemma EnumeratesExtend(order: seq<Pid>, s: set<Pid>, pid: Pid)
    requires Enumerates(order, s) && pid !in s
    ensures Enumerates(order + [pid], s + {pid})
  {
  }

  // ---------------------------------------------------------------- the executor object

  class GovernorExecutor {
    const policy: Policy
    var pending: map<Pid, Pending>
    var recent: seq<Time>

    function Abs(): Exec
      reads this
    {
      Exec(pending, recent)
    }

    constructor (policy: Policy)
      ensures this.policy == policy && Abs() == Exec(map[], [])
    {
      this.policy := policy;
      pending, recent := map[], [];
    }

    method TrimRateLimitWindow(now: Time)
      modifies this`recent
      ensures Abs() == Trimmed(old(Abs()), policy, now)
    {
      var cutoff := now - policy.Window();
      while recent != [] && recent[0] < cutoff
        invariant Trim(recent, cutoff) == Trim(old(recent), cutoff)
        decreases |recent|
      {
        recent := recent[1..];
      }
    }

    method RateLimitWouldBlock(now: Time) returns (blocked: bool)
      modifies this`recent
      ensures Abs() == Trimmed(old(Abs()), policy, now)
      ensures blocked <==> Exceeded(Abs(), policy)
    {
      TrimRateLimitWindow(now);
      blocked := policy.maxKills != 0 && |recent| >= policy.maxKills;
    }

    method EvaluateAll(processes: map<Pid, Lifecycle>, b: Breaches, now: Time)
      returns (decisions: seq<Decision>)
      modifies this`recent
      ensures Abs() == Trimmed(old(Abs()), policy, now)
      ensures decisions == Evaluate(Abs(), policy, processes, b)
    {
      TrimRateLimitWindow(now);
      var pids := Ascending(processes.Keys);
      decisions := [];
      for i := 0 to |pids|
        invariant |decisions| == i
        invariant forall j :: 0 <= j < i ==>
          decisions[j] == Decide(Abs(), policy, pids[j], processes[pids[j]], b)
        invariant Abs() == Trimmed(old(Abs()), policy, now)
      {
        decisions := decisions + [Decide(Abs(), policy, pids[i], processes[pids[i]], b)];
      }
    }

    method Sigterm(pid: Pid, name: Bytes, category: AICategory, v: View) returns (hit: Option<Instance>)
      modifies this
      ensures (Abs(), hit) == SendSigterm(old(Abs()), pid, name, category, v)
    {
      var pidfd := PidfdOpen(v, pid);
      var starttime := ReadStarttime(v, pid);
      match KillByPid(v, pid) {
        case NoSuchProcess => return None;
        case OsError => return None;
        case Delivered(to) =>
          recent := recent + [v.now];
          pending := pending[pid := Pending(name, category, v.now, None, pidfd, starttime)];
          return Some(to);
      }
    }

    method Stamp(pid: Pid, now: Time)
      modifies this`pending
      ensures pid !in old(pending) ==> pending == old(pending)
      ensures pid in old(pending) ==>
        pending == old(pending)[pid := old(pending)[pid].(sigkillTime := Some(now))]
    {
      if pid in pending {
        pending := pending[pid := pending[pid].(sigkillTime := Some(now))];
      }
    }

    method Sigkill(pid: Pid, v: View) returns (outcome: Sigkill)
      modifies this`pending
      ensures (Abs(), outcome) == SendSigkill(old(Abs()), pid, v)
    {
      var identityOk := false;
      if pid in pending {
        var p := pending[pid];
        identityOk := p.pidfd.Some? || (p.starttime.Some? && ReadStarttime(v, pid) == p.starttime);
      }
      if !identityOk {
        Stamp(pid, v.now);
        return PidReusedAborted;
      }
      var sent := if pending[pid].pidfd.Some? then KillByPidfd(v, pending[pid].pidfd.value) else KillByPid(v, pid);
      match sent {
        case OsError => return SignalError;
        case NoSuchProcess =>
          Stamp(pid, v.now);
          return PidReusedAborted;
        case Delivered(to) =>
          Stamp(pid, v.now);
          return SignalKillSent(to);
      }
    }

    /** Grace is checked once for all entries; then each expired entry gets its SIGKILL, in the
        hash map's order. */
    method ExecuteAfterGrace(os: nat -> View, base: nat) returns (results: seq<(Pid, Sigkill)>, ghost order: seq<Pid>)
      modifies this`pending
      ensures Enumerates(order, Expired(old(Abs()), policy, os(base).now))
      ensures Escalated(Abs(), results) == EscalateAll(old(Abs()), order, os, base + 1)
    {
      var expired := Expired(Abs(), policy, os(base).now);
      var todo := expired;
      ghost var before := Abs();
      ghost var done: set<Pid> := {};
      results, order := [], [];
      while todo != {}
        invariant todo !! done && todo + done == expired && Enumerates(order, done)
        invariant Escalated(Abs(), results) == EscalateAll(before, order, os, base + 1)
        decreases todo
      {
        var pid :| pid in todo;
        EscalateAllExtend(before, order, pid, os, base + 1);
        EnumeratesExtend(order, done, pid);
        var outcome := Sigkill(pid, os(base + 1 + |results|));
        results := results + [(pid, outcome)];
        order, done := order + [pid], done + {pid};
        todo := todo - {pid};
      }
    }

    method ClearPending(pid: Pid)
      modifies this`pending
      ensures pending == old(pending) - {pid}
    {
      pending := pending - {pid};
    }
  }
}
