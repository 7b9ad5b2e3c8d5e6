/** The governor's slice of the runtime as a state machine: what one tick, one audit pass, one
    manual kill and one force-kill do to the state (src/runtime.rs). The class in Runtime.dfy is
    proved against these functions; the run theorems are proved about them. */
module Protocol {
  import opened Options
  import opened Text
  import opened Kernel
  import opened Rings
  import opened Model
  import opened Executor
  import opened ExitClassify

  datatype Config = Config(policy: Policy, autoActuate: bool, auditHistory: nat, completedHistory: nat)

  datatype KillSource = Manual | Automated

  datatype AuditAction = AuditSigterm | AuditSigkill | AuditPidReused

  datatype AuditEntry = AuditEntry(
    action: AuditAction,
    source: KillSource,
    pid: Pid,
    name: Bytes,
    category: Option<AICategory>,
    reason: Bytes,
    success: bool)

  datatype Summary = Summary(
    pid: Pid,
    name: Bytes,
    category: Option<AICategory>,
    signal: Option<int>,
    exitCode: Option<int>)

  /** What an observer outside the program sees, in order: signals attempted, with the process
      instance they hit, and exits drained, with the reason they were given. */
  datatype Observation =
    | Attempt(time: Time, entry: AuditEntry, hit: Option<Instance>)
    | Gone(time: Time, summary: Summary, reason: Option<ExitReason>)

  /** A completed tick and the PIDs its projection found in breach. */
  datatype TickRecord = TickRecord(now: Time, breaching: set<Pid>)

  /** The last three fields are the observer's: nothing in the program reads them. */
  datatype State = State(
    exec: Exec,
    breachSince: map<Pid, Time>,
    decisions: seq<Decision>,
    annotated: seq<Row>,
    platform: Option<Platform>,
    processes: Option<map<Pid, Lifecycle>>,
    killed: map<Pid, Bytes>,
    audit: seq<AuditEntry>,
    completed: seq<Summary>,
    attribution: seq<Option<Attribution>>,
    thresholds: Thresholds,
    sustainSecs: nat,
    log: seq<Observation>,
    ticks: seq<TickRecord>,
    clock: Time)

  function Initial(thresholds: Thresholds, sustainSecs: nat): State {
    State(Exec(map[], []), map[], [], [], None, None, map[], [], [], [], thresholds, sustainSecs, [], [], 0)
  }

  // ---------------------------------------------------------------- recording a kill

  /** What a delivered signal writes into `governor_killed_pids`. */
  function Tag(e: AuditEntry): Bytes {
    match (e.action, e.source)
    case (AuditSigkill, Automated) => Ascii("SIGKILL after SIGTERM grace")
    case (AuditSigkill, Manual) => Ascii("force-kill via SIGKILL")
    case _ => e.reason
  }

  function Record(cfg: Config, s: State, e: AuditEntry, hit: Option<Instance>, now: Time): State {
    s.(killed := if e.success then s.killed[e.pid := Tag(e)] else s.killed,
       audit := PushBounded(s.audit, e, cfg.auditHistory),
       log := s.log + [Attempt(now, e, hit)],
       clock := now)
  }

  function CategoryOr(category: Option<AICategory>, fallback: AICategory): AICategory {
    match category case Some(c) => c case None => fallback
  }

  function Terminate(cfg: Config, s: State, source: KillSource, pid: Pid, name: Bytes,
                     category: Option<AICategory>, fallback: AICategory, reason: Bytes, v: View): State
  {
    var (exec, hit) := SendSigterm(s.exec, pid, name, CategoryOr(category, fallback), v);
    Record(cfg, s.(exec := exec), AuditEntry(AuditSigterm, source, pid, name, category, reason, hit.Some?), hit, v.now)
  }

  function HitOf(outcome: Sigkill): Option<Instance> {
    match outcome case SignalKillSent(to) => Some(to) case _ => None
  }

  /** An arrow, U+2192, stands before `Enter`. */
  const FORCE_KILL_REASON: Bytes := Ascii("operator force-kill via TUI (kill_confirm Waiting ") + ARROW + Ascii(" Enter)")

  function KillEntry(source: KillSource, pid: Pid, name: Bytes, category: Option<AICategory>, outcome: Sigkill)
    : AuditEntry
  {
    var reason :=
      if source.Manual? then FORCE_KILL_REASON
      else match outcome
        case SignalKillSent(_) => Ascii("SIGTERM grace expired; escalated to SIGKILL")
        case PidReusedAborted => Ascii("SIGTERM grace expired; SIGKILL refused by PID-reuse guard")
        case SignalError => Ascii("SIGTERM grace expired; SIGKILL OS call failed");
    AuditEntry(if outcome.PidReusedAborted? then AuditPidReused else AuditSigkill,
               source, pid, name, category, reason, outcome.SignalKillSent?)
  }

  function Slay(cfg: Config, s: State, source: KillSource, pid: Pid, name: Bytes,
                category: Option<AICategory>, v: View): State
  {
    var (exec, outcome) := SendSigkill(s.exec, pid, v);
    Record(cfg, s.(exec := exec), KillEntry(source, pid, name, category, outcome), HitOf(outcome), v.now)
  }

  // ---------------------------------------------------------------- the audit pass

  function Candidates(decisions: seq<Decision>): seq<Decision> {
    if decisions == [] then []
    else
      var n := |decisions| - 1;
      Candidates(decisions[..n]) + if decisions[n].action.SignalTermSent? then [decisions[n]] else []
  }

  /** `saturating_duration_since`. */
  function Elapsed(now: Time, since: Time): Time {
    if now >= since then now - since else 0
  }

  /** The breach has been on record for the current sustain window. */
  predicate Sustained(s: State, pid: Pid, start: Time) {
    pid in s.breachSince && Elapsed(start, s.breachSince[pid]) >= s.sustainSecs * SECOND
  }

  /** One candidate of one pass: the sustain gate, the annotated row, the rate gate, the signal. */
  function Actuate(cfg: Config, s: State, c: Decision, start: Time, v: View): State {
    if !Sustained(s, c.pid, start) then s
    else
      match FindRow(s.annotated, c.pid)
      case None => s
      case Some(row) =>
        var t := s.(exec := Trimmed(s.exec, cfg.policy, v.now), clock := v.now);
        if Exceeded(t.exec, cfg.policy) then t
        else Terminate(cfg, t, Automated, c.pid, row.name, Some(row.category), Inference, c.reason, v)
  }

  /** The state after the first `n` candidates. The pass reads the clock at `os(0)`; candidate `i`
      meets the kernel as it is at `os(1 + i)`. */
  function Actuated(cfg: Config, s: State, os: nat -> View, n: nat): State
    requires n <= |Candidates(s.decisions)|
  {
    if n == 0 then s
    else Actuate(cfg, Actuated(cfg, s, os, n - 1), Candidates(s.decisions)[n - 1], os(0).now, os(n))
  }

  /** Name and category for an escalation's audit entry: the annotated row, else the pending entry. */
  function Identity(s: State, pid: Pid): (Bytes, Option<AICategory>) {
    match FindRow(s.annotated, pid)
    case Some(row) => (row.name, Some(row.category))
    case None =>
      if pid in s.exec.pending then (s.exec.pending[pid].name, Some(s.exec.pending[pid].category))
      else (Ascii("<unknown>"), None)
  }

  function EscalateOne(cfg: Config, s: State, pid: Pid, v: View): State {
    Slay(cfg, s, Automated, pid, Identity(s, pid).0, Identity(s, pid).1, v)
  }

  function Escalate(cfg: Config, s: State, order: seq<Pid>, os: nat -> View, base: nat): State
    decreases |order|
  {
    if order == [] then s
    else
      var n := |order| - 1;
      EscalateOne(cfg, Escalate(cfg, s, order[..n], os, base), order[n], os(base + n))
  }

  /** The view at which a pass checks which grace periods are over. */
  function GraceIndex(s: State): nat {
    1 + |Candidates(s.decisions)|
  }

  function Pass(cfg: Config, s: State, os: nat -> View, order: seq<Pid>): State {
    if !cfg.autoActuate then s
    else
      var t := Actuated(cfg, s, os, |Candidates(s.decisions)|);
      Escalate(cfg, t, order, os, GraceIndex(s) + 1)
  }

  // ---------------------------------------------------------------- the tick

  datatype ExitReport = ExitReport(summary: Summary, stderr: seq<Bytes>)

  /** What a successful collection brings: the new process table, the new platform snapshot, the
      lifecycle map, the exits since the last tick and the kernel log. */
  datatype Sample = Sample(
    annotated: seq<Row>,
    platform: Platform,
    processes: map<Pid, Lifecycle>,
    exits: seq<ExitReport>,
    dmesg: seq<Bytes>)

  datatype Tunables = Tunables(thresholds: Thresholds, sustainSecs: nat)

  /** One tick: the web tunables it finds, and its sample, or None when collecting fails. */
  datatype TickInput = TickInput(now: Time, tunables: Option<Tunables>, sample: Option<Sample>)

  function Context(killed: map<Pid, Bytes>, x: ExitReport, dmesg: seq<Bytes>): ExitContext {
    var pid := x.summary.pid;
    ExitContext(
      if x.summary.signal == Some(9) || x.summary.signal == None then dmesg else [],
      x.stderr,
      pid in killed,
      if pid in killed then Some(killed[pid]) else None)
  }

  function ReasonOf(killed: map<Pid, Bytes>, x: ExitReport, dmesg: seq<Bytes>): Option<ExitReason> {
    if x.summary.category.None? then None
    else Some(Classify(x.summary.pid, x.summary.signal, x.summary.exitCode, Context(killed, x, dmesg)))
  }

  function WireOf(reason: Option<ExitReason>): Option<Attribution> {
    match reason case Some(r) => Some(ToWire(r)) case None => None
  }

  /** One exit: kept with its attribution, classified when it has a category (which consumes the
      governor's tag), and its pending entry dropped whether or not it has one. */
  function Drain(cfg: Config, s: State, x: ExitReport, dmesg: seq<Bytes>, now: Time): State {
    var reason := ReasonOf(s.killed, x, dmesg);
    s.(completed := PushBounded(s.completed, x.summary, cfg.completedHistory),
       attribution := PushBounded(s.attribution, WireOf(reason), cfg.completedHistory),
       killed := if reason.Some? then s.killed - {x.summary.pid} else s.killed,
       exec := s.exec.(pending := s.exec.pending - {x.summary.pid}),
       log := s.log + [Gone(now, x.summary, reason)],
       clock := now)
  }

  function Drained(cfg: Config, s: State, sample: Sample, now: Time, n: nat): State
    requires n <= |sample.exits|
  {
    if n == 0 then s
    else Drain(cfg, Drained(cfg, s, sample, now, n - 1), sample.exits[n - 1], sample.dmesg, now)
  }

  /** The projection reads the previous tick's rows and platform, against the current thresholds. */
  function Project(s: State): Breaches {
    match s.platform
    case None => Breaches({}, {}, false)
    case Some(p) =>
      Breaches(set r <- s.annotated | VramBreached(r, p, s.thresholds) :: r.pid,
               set r <- s.annotated | RamBreached(r, p, s.thresholds) :: r.pid,
               HostTooHot(p, s.thresholds))
  }

  /** Every PID in breach; a host that is too hot puts all its AI processes in breach. */
  function BreachingPids(s: State): set<Pid> {
    var b := Project(s);
    b.vram + b.ram + if b.hot then set r <- s.annotated | r.category != NotAi :: r.pid else {}
  }

  function Refresh(since: map<Pid, Time>, breaching: set<Pid>, now: Time): map<Pid, Time> {
    map pid <- breaching :: if pid in since then since[pid] else now
  }

  /** The part of a tick after the projection: sustain map, decisions, and only then the new tables. */
  function Install(cfg: Config, s: State, sample: Sample, b: Breaches, breaching: set<Pid>, now: Time): State {
    var exec := Trimmed(s.exec, cfg.policy, now);
    s.(exec := exec,
       breachSince := Refresh(s.breachSince, breaching, now),
       decisions := Evaluate(exec, cfg.policy, sample.processes, b),
       annotated := sample.annotated,
       platform := Some(sample.platform),
       processes := Some(sample.processes),
       ticks := s.ticks + [TickRecord(now, breaching)],
       clock := now)
  }

  function Assess(cfg: Config, s: State, sample: Sample, now: Time): State {
    Install(cfg, s, sample, Project(s), BreachingPids(s), now)
  }

  function Tune(s: State, input: TickInput): State {
    match input.tunables
    case None => s.(clock := input.now)
    case Some(t) => s.(thresholds := t.thresholds, sustainSecs := t.sustainSecs, clock := input.now)
  }

  /** A failed tick leaves everything but the tunables as the last completed tick left it. */
  function Tick(cfg: Config, s: State, input: TickInput): State {
    var t := Tune(s, input);
    match input.sample
    case None => t
    case Some(sample) =>
      Assess(cfg, Drained(cfg, t, sample, input.now, |sample.exits|), sample, input.now)
  }

  // ---------------------------------------------------------------- the operator

  datatype Outcome = NoSnapshot | NotFound | Signalled | Refused | Failed

  function ManualKill(cfg: Config, s: State, pid: Pid, reason: Bytes, v: View): (State, Outcome) {
    if s.processes.None? then (s, NoSnapshot)
    else if pid !in s.processes.value then (s, NotFound)
    else
      var lc := s.processes.value[pid];
      var t := Terminate(cfg, s, Manual, pid, lc.name, lc.category, NotAi, reason, v);
      (t, if KillByPid(v, pid).Delivered? then Signalled else Failed)
  }

  /** As `Identity`, but reading the lifecycle map first. */
  function ForceIdentity(s: State, pid: Pid): (Bytes, Option<AICategory>)
    requires s.processes.Some?
  {
    if pid in s.processes.value then (s.processes.value[pid].name, s.processes.value[pid].category)
    else if pid in s.exec.pending then (s.exec.pending[pid].name, Some(s.exec.pending[pid].category))
    else (Ascii("<unknown>"), None)
  }

  function ForceKill(cfg: Config, s: State, pid: Pid, v: View): (State, Outcome) {
    if s.processes.None? then (s, NoSnapshot)
    else
      var (name, category) := ForceIdentity(s, pid);
      (Slay(cfg, s, Manual, pid, name, category, v),
       match SendSigkill(s.exec, pid, v).1
       case SignalKillSent(_) => Signalled
       case PidReusedAborted => Refused
       case SignalError => Failed)
  }
}
