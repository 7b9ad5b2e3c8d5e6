/** What stands between a kill and the alert that should come first: the check on the configuration
    (src/config.rs), the resolver (src/thresholds.rs), the check on each web change (src/web/settings.rs),
    and what the two checks together do and do not give every run. */
module Validation {
  import opened Options
  import opened Kernel
  import opened Model
  import opened Executor
  import opened Protocol
  import Projection
  import opened Runs
  import opened SigkillSafety
  import opened Sustain
  import Discipline
  import Scenario

  // ---------------------------------------------------------------- the resolver

  /** The `[thresholds]` section, and the body of a web change: every field may be missing. */
  datatype ThresholdsConfig = ThresholdsConfig(
    thermalAmberC: Option<real>,
    thermalRedC: Option<real>,
    vramAttentionPct: Option<real>,
    vramCriticalPct: Option<real>,
    ramAttentionPct: Option<real>,
    ramCriticalPct: Option<real>,
    kvAttentionPct: Option<real>,
    kvCriticalPct: Option<real>,
    alertSustainSecs: Option<nat>)

  datatype EffectiveThresholds = EffectiveThresholds(
    thermalAmberC: real,
    thermalRedC: real,
    vramAttentionPct: real,
    vramCriticalPct: real,
    ramAttentionPct: real,
    ramCriticalPct: real,
    kvAttentionPct: real,
    kvCriticalPct: real,
    alertSustainSecs: nat)
  {
    predicate Valid() {
      && 0.0 < thermalAmberC < thermalRedC
      && vramCriticalPct >= vramAttentionPct && ramCriticalPct >= ramAttentionPct && kvCriticalPct >= kvAttentionPct
      && 0.0 <= vramAttentionPct <= 100.0 && 0.0 <= vramCriticalPct <= 100.0
      && 0.0 <= ramAttentionPct <= 100.0 && 0.0 <= ramCriticalPct <= 100.0
      && 0.0 <= kvAttentionPct <= 100.0 && 0.0 <= kvCriticalPct <= 100.0
      && 1 <= alertSustainSecs <= 600
    }

    /** The part the governor reads. */
    function ForGovernor(): Thresholds {
      Thresholds(vramCriticalPct, ramCriticalPct, thermalRedC)
    }
  }

  const ALERT_SUSTAIN_SECS: nat := 5
  const UNSET := ThresholdsConfig(None, None, None, None, None, None, None, None, None)

  function Or<T>(x: Option<T>, default: T): T {
    if x.Some? then x.value else default
  }

  /** Missing fields take the contract's defaults, not the values in force. */
  function Resolve(c: ThresholdsConfig): Option<EffectiveThresholds> {
    var r := EffectiveThresholds(
      Or(c.thermalAmberC, 85.0), Or(c.thermalRedC, 95.0),
      Or(c.vramAttentionPct, 85.0), Or(c.vramCriticalPct, 95.0),
      Or(c.ramAttentionPct, 90.0), Or(c.ramCriticalPct, 95.0),
      Or(c.kvAttentionPct, 80.0), Or(c.kvCriticalPct, 95.0),
      Or(c.alertSustainSecs, ALERT_SUSTAIN_SECS));
    if r.Valid() then Some(r) else None
  }

  // ---------------------------------------------------------------- start

  /** The fields of the configuration that the checks read. */
  datatype Settings = Settings(graceSecs: nat, killSustainSecs: nat, thresholds: ThresholdsConfig)

  datatype Invalid = GraceBelowOneSecond | KillUndercutsAlert

  function Validate(x: Settings): Option<Invalid> {
    if x.graceSecs < 1 then Some(GraceBelowOneSecond)
    else if x.killSustainSecs < Or(x.thresholds.alertSustainSecs, ALERT_SUSTAIN_SECS) then Some(KillUndercutsAlert)
    else None
  }

  /** The program starts: the configuration is valid and its thresholds resolve. */
  predicate Starts(x: Settings) {
    Validate(x).None? && Resolve(x.thresholds).Some?
  }

  /** The alert state machine is built once, with the alert sustain of the start. */
  function LiveAlertSustain(x: Settings): nat
    requires Starts(x)
  {
    Resolve(x.thresholds).value.alertSustainSecs
  }

  function StartCell(x: Settings): Tunables
    requires Starts(x)
  {
    Tunables(Resolve(x.thresholds).value.ForGovernor(), x.killSustainSecs)
  }

  // ---------------------------------------------------------------- web changes

  datatype SettingsUpdate = SettingsUpdate(thresholds: ThresholdsConfig, killSustainSecs: Option<nat>)

  /** The check of `update_settings`: the kill sustain that is posted, or the one read from the cell,
      against the alert sustain that is posted, or the default. */
  function Checked(update: SettingsUpdate, seenSustain: nat): Option<Tunables> {
    match Resolve(update.thresholds)
    case None => None
    case Some(proposed) =>
      var kill := Or(update.killSustainSecs, seenSustain);
      if kill < proposed.alertSustainSecs then None else Some(Tunables(proposed.ForGovernor(), kill))
  }

  /** The cell the handlers and the tick loop share. */
  class SharedTunables {
    var cell: Tunables

    constructor (x: Settings)
      requires Starts(x)
      ensures cell == StartCell(x)
    {
      cell := StartCell(x);
    }

    /** `seenSustain` is what this request read from the cell, before others may have swapped it. */
    method UpdateSettings(update: SettingsUpdate, seenSustain: nat) returns (accepted: bool)
      modifies this
      ensures accepted <==> Checked(update, seenSustain).Some?
      ensures cell == if accepted then Checked(update, seenSustain).value else old(cell)
    {
      var proposed := Resolve(update.thresholds);
      if proposed.None? {
        return false;
      }
      var kill := if update.killSustainSecs.Some? then update.killSustainSecs.value else seenSustain;
      if kill < proposed.value.alertSustainSecs {
        return false;
      }
      cell := Tunables(proposed.value.ForGovernor(), kill);
      return true;
    }
  }

  /** A request, and how many accepted changes had been made when it read the cell. */
  datatype Post = Post(update: SettingsUpdate, readAt: nat)

  /** All contents the cell ever has, in order. Requests may interleave between read and swap. */
  function Cells(x: Settings, posts: seq<Post>): (cells: seq<Tunables>)
    requires Starts(x)
    ensures cells != []
  {
    if posts == [] then [StartCell(x)]
    else
      var before, last := Cells(x, posts[..|posts| - 1]), posts[|posts| - 1];
      var seen := before[if last.readAt < |before| then last.readAt else |before| - 1];
      var changed := Checked(last.update, seen.sustainSecs);
      if changed.Some? then before + [changed.value] else before
  }

  function Given<T>(x: Option<T>, default: T): T {
    match x case Some(v) => v case None => default
  }

  /** Exactly which changes are accepted, and what they put into the cell: each limit as posted or else the contract's
      default, VRAM, RAM and temperature each under its own name, and the kill sustain as posted or else as read. */
  lemma AcceptedIff(update: SettingsUpdate, seenSustain: nat)
    ensures var c := update.thresholds;
            var amber, red := Given(c.thermalAmberC, 85.0), Given(c.thermalRedC, 95.0);
            var va, vc := Given(c.vramAttentionPct, 85.0), Given(c.vramCriticalPct, 95.0);
            var ra, rc := Given(c.ramAttentionPct, 90.0), Given(c.ramCriticalPct, 95.0);
            var ka, kc := Given(c.kvAttentionPct, 80.0), Given(c.kvCriticalPct, 95.0);
            var alert, kill := Given(c.alertSustainSecs, 5), Given(update.killSustainSecs, seenSustain);
            && (Checked(update, seenSustain).Some?
                <==> && 0.0 < amber < red && 0.0 <= va <= vc <= 100.0 && 0.0 <= ra <= rc <= 100.0 && 0.0 <= ka <= kc <= 100.0
                     && 1 <= alert <= 600 && alert <= kill)
            && (Checked(update, seenSustain).Some? ==>
                  var cell := Checked(update, seenSustain).value;
                  && cell.thresholds.vramCriticalPct == vc && cell.thresholds.ramCriticalPct == rc
                  && cell.thresholds.thermalRedC == red && cell.sustainSecs == kill)
  {
  }

  /** Exactly which configurations start, and the limits they start with. */
  lemma StartsIff(x: Settings)
    ensures var c := x.thresholds;
            var amber, red := Given(c.thermalAmberC, 85.0), Given(c.thermalRedC, 95.0);
            var va, vc := Given(c.vramAttentionPct, 85.0), Given(c.vramCriticalPct, 95.0);
            var ra, rc := Given(c.ramAttentionPct, 90.0), Given(c.ramCriticalPct, 95.0);
            var ka, kc := Given(c.kvAttentionPct, 80.0), Given(c.kvCriticalPct, 95.0);
            var alert := Given(c.alertSustainSecs, 5);
            && (Starts(x)
                <==> && x.graceSecs >= 1 && 0.0 < amber < red
                     && 0.0 <= va <= vc <= 100.0 && 0.0 <= ra <= rc <= 100.0 && 0.0 <= ka <= kc <= 100.0
                     && 1 <= alert <= 600 && alert <= x.killSustainSecs)
            && (Starts(x) ==>
                  var t := StartCell(x).thresholds;
                  t.vramCriticalPct == vc && t.ramCriticalPct == rc && t.thermalRedC == red && LiveAlertSustain(x) == alert)
  {
  }

  /** Whatever is posted, kills wait a second at least, and the critical percentages are percentages. With these,
      `Projection.FullMemoryBreaches` says that full VRAM or full RAM is a breach. */
  lemma {:induction false} CellsAreSane(x: Settings, posts: seq<Post>)
    requires Starts(x)
    ensures forall c <- Cells(x, posts) ::
              && c.sustainSecs >= 1
              && 0.0 <= c.thresholds.vramCriticalPct <= 100.0 && 0.0 <= c.thresholds.ramCriticalPct <= 100.0
  {
    if posts != [] {
      CellsAreSane(x, posts[..|posts| - 1]);
    }
  }

  /** A run of the program started on `x` under these posts: `seen` says which content of the cell each
      tick finds. */
  ghost predicate WebRun(x: Settings, posts: seq<Post>, cfg: Config, init: State, events: seq<Event>, seen: seq<nat>)
    requires Starts(x)
  {
    && cfg.policy.graceSecs == x.graceSecs
    && init == Initial(StartCell(x).thresholds, x.killSustainSecs)
    && |seen| == |events|
    && (forall i, j :: 0 <= i < j < |seen| ==> seen[i] <= seen[j])
    && (forall i :: 0 <= i < |seen| ==> seen[i] < |Cells(x, posts)|)
    && (forall i :: 0 <= i < |events| && events[i].TickEvent? && events[i].input.tunables.Some? ==>
          events[i].input.tunables.value == Cells(x, posts)[seen[i]])
  }

  // ---------------------------------------------------------------- the sustain in force

  lemma {:induction false} DrainedKeepsSustain(cfg: Config, s: State, sample: Sample, now: Time, n: nat)
    requires n <= |sample.exits|
    ensures Drained(cfg, s, sample, now, n).sustainSecs == s.sustainSecs
  {
    if n > 0 {
      DrainedKeepsSustain(cfg, s, sample, now, n - 1);
    }
  }

  lemma StepSustain(cfg: Config, s: State, e: Event)
    ensures Step(cfg, s, e).sustainSecs
            == if e.TickEvent? && e.input.tunables.Some? then e.input.tunables.value.sustainSecs else s.sustainSecs
  {
    match e
    case TickEvent(input) =>
      if input.sample.Some? {
        DrainedKeepsSustain(cfg, Tune(s, input), input.sample.value, input.now, |input.sample.value.exits|);
      }
    case PassEvent(os, order) =>
      if cfg.autoActuate {
        hide Pass;
        Discipline.PassKeepsPlan(cfg, s, os, order, 0);
      } else {
        hide Actuated, Escalate;
      }
    case ManualKillEvent(_, _, _) =>
    case ForceKillEvent(_, _) =>
  }

  /** The checkable condition: no content of the cell has a kill sustain below the live alert sustain. */
  predicate KillsCoverAlert(x: Settings, posts: seq<Post>)
    requires Starts(x)
  {
    forall c <- Cells(x, posts) :: c.sustainSecs >= LiveAlertSustain(x)
  }

  lemma {:induction false} StartIsACell(x: Settings, posts: seq<Post>)
    requires Starts(x)
    ensures Cells(x, posts)[0] == StartCell(x)
  {
    if posts != [] {
      StartIsACell(x, posts[..|posts| - 1]);
    }
  }

  lemma {:induction false} SustainCoversAlert(x: Settings, posts: seq<Post>, cfg: Config, init: State, events: seq<Event>, seen: seq<nat>)
    requires Starts(x) && KillsCoverAlert(x, posts) && WebRun(x, posts, cfg, init, events, seen)
    ensures Run(cfg, init, events).sustainSecs >= LiveAlertSustain(x)
  {
    hide Step, Cells, Validate, Resolve;
    StartIsACell(x, posts);
    assert StartCell(x) in Cells(x, posts);
    if events != [] {
      var n := |events| - 1;
      SustainCoversAlert(x, posts, cfg, init, events[..n], seen[..n]);
      StepSustain(cfg, Run(cfg, init, events[..n]), events[n]);
      assert Cells(x, posts)[seen[n]] in Cells(x, posts);
    }
  }

  // ---------------------------------------------------------------- kills before the alert is due

  /** At this turn a SIGTERM is attempted although the breach is younger than the alert sustain. */
  ghost predicate Undercuts(cfg: Config, s: State, os: nat -> View, i: nat, alertSecs: nat)
    requires i < |Candidates(s.decisions)|
  {
    && Actuated(cfg, s, os, i + 1).log != Actuated(cfg, s, os, i).log
    && exists j: nat :: && StretchFrom(s.ticks, Candidates(s.decisions)[i].pid, j)
                        && os(0).now - s.ticks[j].now < alertSecs * SECOND
  }

  /** The stretch is old enough for the kill and too young for the alert. */
  ghost predicate Between(s: State, pid: Pid, at: Time, alertSecs: nat) {
    exists j: nat :: && StretchFrom(s.ticks, pid, j)
                     && s.sustainSecs * SECOND <= at - s.ticks[j].now < alertSecs * SECOND
  }

  /** Exactly when a turn undercuts, in any legal run and for any alert sustain. */
  lemma TurnUndercutsIff(cfg: Config, init: State, events: seq<Event>, os: nat -> View, order: seq<Pid>, i: nat, alertSecs: nat)
    requires IsInitial(init) && LegalRun(cfg, init, events) && cfg.autoActuate
    requires Legal(cfg, Run(cfg, init, events), PassEvent(os, order))
    requires i < |Candidates(Run(cfg, init, events).decisions)|
    ensures var s := Run(cfg, init, events);
            var pid := Candidates(s.decisions)[i].pid;
            Undercuts(cfg, s, os, i, alertSecs)
            <==> && Between(s, pid, os(0).now, alertSecs) && FindRow(s.annotated, pid).Some?
                 && HasRoom(cfg, Actuated(cfg, s, os, i).log, os(i + 1).now)
  {
    hide Run, LegalRun, Legal, Actuated, Candidates, HasRoom, FindRow, TermObservation;
    CandidateFiresExactlyWhenDue(cfg, init, events, os, order, i);
    var s := Run(cfg, init, events);
    var pid := Candidates(s.decisions)[i].pid;
    if Due(s, pid, os(0).now) {
      var d: nat :| StretchFrom(s.ticks, pid, d) && s.ticks[d].now + s.sustainSecs * SECOND <= os(0).now;
      OneStretch(s.ticks, pid, d);
    }
    if Between(s, pid, os(0).now, alertSecs) {
      var j: nat :| && StretchFrom(s.ticks, pid, j)
                    && s.sustainSecs * SECOND <= os(0).now - s.ticks[j].now < alertSecs * SECOND;
      assert s.ticks[j].now + s.sustainSecs * SECOND <= os(0).now;
      assert Due(s, pid, os(0).now);
    }
  }

  lemma OneStretch(ticks: seq<TickRecord>, pid: Pid, d: nat)
    requires StretchFrom(ticks, pid, d)
    ensures forall j: nat :: StretchFrom(ticks, pid, j) ==> j == d
  {
    forall j: nat | StretchFrom(ticks, pid, j)
      ensures j == d
    {
      StretchStartUnique(ticks, pid, j, d);
    }
  }

  /** One turn of one pass of one run of the program under these posts undercuts the live alert. */
  ghost predicate UndercutIn(x: Settings, posts: seq<Post>, cfg: Config, init: State, events: seq<Event>, seen: seq<nat>,
                             os: nat -> View, order: seq<Pid>, i: nat)
    requires Starts(x)
  {
    && WebRun(x, posts, cfg, init, events, seen) && LegalRun(cfg, init, events) && cfg.autoActuate
    && var s := Run(cfg, init, events);
    && Legal(cfg, s, PassEvent(os, order)) && i < |Candidates(s.decisions)|
    && Undercuts(cfg, s, os, i, LiveAlertSustain(x))
  }

  ghost predicate NeverUndercut(x: Settings, posts: seq<Post>)
    requires Starts(x)
  {
    forall cfg, init, events, seen, os: nat -> View, order, i :: !UndercutIn(x, posts, cfg, init, events, seen, os, order, i)
  }

  lemma CoveredNeverUndercuts(x: Settings, posts: seq<Post>, cfg: Config, init: State, events: seq<Event>, seen: seq<nat>,
                              os: nat -> View, order: seq<Pid>, i: nat)
    requires Starts(x) && KillsCoverAlert(x, posts)
    ensures !UndercutIn(x, posts, cfg, init, events, seen, os, order, i)
  {
    hide Cells, Run, LegalRun, Legal, Candidates, Undercuts, Validate, Resolve, KillsCoverAlert;
    if UndercutIn(x, posts, cfg, init, events, seen, os, order, i) {
      SustainCoversAlert(x, posts, cfg, init, events, seen);
      TurnUndercutsIff(cfg, init, events, os, order, i, LiveAlertSustain(x));
    }
  }

  /** The configuration of the counterexamples: armed, on the grace of `x`. */
  function Armed(x: Settings): Config {
    Config(Policy({}, {}, true, x.graceSecs, 3, 60), true, 100, 50)
  }

  /** A content of the cell below the alert sustain, and the run that shows it: two ticks that find it,
      then a pass as soon as it allows. */
  lemma ShortSustainUndercuts(x: Settings, posts: seq<Post>, m: nat)
    requires Starts(x) && m < |Cells(x, posts)| && Cells(x, posts)[m].sustainSecs < LiveAlertSustain(x)
    ensures var at := Scenario.Seconds(10 + Cells(x, posts)[m].sustainSecs);
            UndercutIn(x, posts, Armed(x), Initial(StartCell(x).thresholds, x.killSustainSecs),
                       Scenario.TwoTicks(Scenario.Seconds(10), Some(Cells(x, posts)[m])), [m, m], Scenario.Views(at), [], 0)
  {
    hide Cells, Resolve, Validate, Run, LegalRun, Legal, Undercuts, WebRun, SinceIsStretchStart, Initial,
         Scenario.TwoTicks, Scenario.Marked, Scenario.Views;
    var cell, cfg, init := Cells(x, posts)[m], Armed(x), Initial(StartCell(x).thresholds, x.killSustainSecs);
    var start := Scenario.Seconds(10);
    var events := Scenario.TwoTicks(start, Some(cell));
    CellsAreSane(x, posts);
    assert cell in Cells(x, posts);
    TwoTicksAreWebRun(x, posts, m);
    ArmedFits(x);
    MarkedRun(cfg, init, start, Some(cell));
    PassUndercuts(cfg, Run(cfg, init, events), start, cell.sustainSecs, LiveAlertSustain(x));
  }

  lemma ArmedFits(x: Settings)
    requires Starts(x)
    ensures Scenario.Armed(Armed(x)) && IsInitial(Initial(StartCell(x).thresholds, x.killSustainSecs))
  {
  }

  lemma MarkedRun(cfg: Config, init: State, start: Time, tunables: Option<Tunables>)
    requires Scenario.Armed(cfg) && IsInitial(init) && start >= 0
    requires Scenario.ThresholdsUnder(init, tunables).vramCriticalPct <= 100.0
    ensures var events := Scenario.TwoTicks(start, tunables);
            && LegalRun(cfg, init, events) && SinceIsStretchStart(Run(cfg, init, events))
            && Scenario.Marked(Run(cfg, init, events), start, Scenario.SustainUnder(init, tunables))
  {
    hide Run, LegalRun, Scenario.TwoTicks, Scenario.Marked, SinceIsStretchStart;
    Scenario.TwoTicksMark(cfg, init, start, tunables);
    BreachSinceIsStretchStart(cfg, init, Scenario.TwoTicks(start, tunables));
  }

  lemma TwoTicksAreWebRun(x: Settings, posts: seq<Post>, m: nat)
    requires Starts(x) && m < |Cells(x, posts)|
    ensures WebRun(x, posts, Armed(x), Initial(StartCell(x).thresholds, x.killSustainSecs),
                   Scenario.TwoTicks(Scenario.Seconds(10), Some(Cells(x, posts)[m])), [m, m])
  {
    hide Cells, Resolve;
  }

  lemma PassUndercuts(cfg: Config, s: State, start: Time, sustainSecs: nat, alertSecs: nat)
    requires Scenario.Armed(cfg) && Scenario.Marked(s, start, sustainSecs) && SinceIsStretchStart(s) && sustainSecs < alertSecs
    ensures var os := Scenario.Views(start + sustainSecs * SECOND);
            && Legal(cfg, s, PassEvent(os, [])) && |Candidates(s.decisions)| == 1
            && Undercuts(cfg, s, os, 0, alertSecs)
  {
    hide Actuated, SinceIsStretchStart, Undercuts;
    var at := start + sustainSecs * SECOND;
    Scenario.Fires(cfg, s, at);
    Scenario.PassIsItsTurn(cfg, s, at);
    Scenario.NoTurnYet(cfg, s, at);
    UndercutsNow(cfg, s, at, alertSecs);
  }

  lemma UndercutsNow(cfg: Config, s: State, at: Time, alertSecs: nat)
    requires |Candidates(s.decisions)| == 1 && Candidates(s.decisions)[0].pid == Scenario.PID
    requires Scenario.PID in s.breachSince && at - s.breachSince[Scenario.PID] < alertSecs * SECOND
    requires SinceIsStretchStart(s)
    requires |Actuated(cfg, s, Scenario.Views(at), 1).log| == |Actuated(cfg, s, Scenario.Views(at), 0).log| + 1
    ensures Undercuts(cfg, s, Scenario.Views(at), 0, alertSecs)
  {
    hide Actuated, Candidates;
    var j: nat :| StretchFrom(s.ticks, Scenario.PID, j) && s.breachSince[Scenario.PID] == s.ticks[j].now;
  }

  /** The exact condition, checkable on the posts alone: no run of the program ever undercuts its alert
      if and only if no content the cell is given has a kill sustain below the alert sustain of the start. */
  lemma NeverUndercutIffCovered(x: Settings, posts: seq<Post>)
    requires Starts(x)
    ensures NeverUndercut(x, posts) <==> KillsCoverAlert(x, posts)
  {
    hide Cells, UndercutIn, Resolve, Validate;
    if KillsCoverAlert(x, posts) {
      forall cfg, init, events, seen, os: nat -> View, order, i
        ensures !UndercutIn(x, posts, cfg, init, events, seen, os, order, i)
      {
        CoveredNeverUndercuts(x, posts, cfg, init, events, seen, os, order, i);
      }
    } else {
      var c :| c in Cells(x, posts) && c.sustainSecs < LiveAlertSustain(x);
      var m :| 0 <= m < |Cells(x, posts)| && Cells(x, posts)[m] == c;
      ShortSustainUndercuts(x, posts, m);
    }
  }

  const SLOW := Settings(5, 30, UNSET.(alertSustainSecs := Some(30)))
  const HASTY := [Post(SettingsUpdate(UNSET, Some(5)), 0)]

  /** The web check is not the check of the start. An alert that waits 30 seconds, and a change that posts
      only a kill sustain of 5: it is accepted, because 5 is the default alert sustain. */
  lemma ShortKillSustainIsAccepted()
    ensures Starts(SLOW) && LiveAlertSustain(SLOW) == 30
    ensures |Cells(SLOW, HASTY)| == 2 && Cells(SLOW, HASTY)[1].sustainSecs == 5
    ensures !NeverUndercut(SLOW, HASTY)
  {
    assert HASTY[..0] == [];
    assert Cells(SLOW, []) == [StartCell(SLOW)];
    var cells := Cells(SLOW, HASTY);
    assert cells == [StartCell(SLOW)] + [Checked(HASTY[0].update, 30).value];
    ShortSustainUndercuts(SLOW, HASTY, 1);
  }

  /** In every run on a validated grace an automated SIGKILL comes at least one second after the SIGTERM
      it answers, whatever is posted. */
  lemma GraceIsAtLeastASecond(x: Settings, born: iset<Instance>, cfg: Config, init: State, events: seq<Event>, k: nat)
    requires Validate(x).None? && cfg.policy.graceSecs == x.graceSecs
    requires IsInitial(init) && LegalRun(cfg, init, events)
    requires StartsDistinct(born) && forall e <- events :: ShowsOnly(born, e)
    requires var log := Run(cfg, init, events).log;
             && k < |log| && log[k].Attempt? && IsKill(log[k], log[k].entry.pid) && log[k].entry.source.Automated?
    ensures var log := Run(cfg, init, events).log;
            exists i: nat :: AnswersAt(cfg, log, k, i) && log[i].hit == log[k].hit && log[k].time - log[i].time >= SECOND
  {
    hide Run, LegalRun;
    SigkillHitsItsSigterm(cfg, born, init, events);
    var log := Run(cfg, init, events).log;
    var i: nat :| AnswersAt(cfg, log, k, i) && log[i].hit == log[k].hit;
    assert cfg.policy.Grace() >= SECOND;
  }

  /** In any state whose limits came out of the cell: whoever uses all of the VRAM, or all of the RAM, is in breach. */
  lemma FullMemoryIsABreach(x: Settings, posts: seq<Post>, c: Tunables, s: State, r: Row)
    requires Starts(x) && c in Cells(x, posts) && s.thresholds == c.thresholds
    requires s.platform.Some? && r in s.annotated
    requires var p := s.platform.value;
             || (r.vramBytes.Some? && r.vramBytes.value >= p.totalVram > 0)
             || (r.rssMb >= p.totalMemory / 1048576 > 0)
    ensures r.pid in BreachingPids(s)
  {
    CellsAreSane(x, posts);
    Projection.FullMemoryBreaches(s, r);
  }
}
