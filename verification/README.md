# Verification of the edge monitor's governor and its record keeping

The repository watches AI workloads on one machine and, when armed, terminates the ones that hold
the host above its limits. This project models the parts where a mistake is costly and proves what
they keep, for every input and over every run:

* **The kill protocol.** Ticks, audit passes, manual kills, force-kills, exits and live changes of the
  settings are the steps of a state machine. Between any two system calls the kernel may end any
  process and hand its PID to another one. `Kernel`, `Model`, `Executor` and `Protocol` are the
  machine; `Runtime` and the executor class are the imperative code, proved against it method by
  method; `Runs` says which runs are legal and breaks every run into single steps. The theorems are in
  `SigkillSafety`, `RateLimit`, `Sustain`, `Attributions`, `Discipline`, `Gates`, `Firing`, `Validation`,
  `Projection` (who is in breach) and `AuditTrail` (what is recorded of whom).
  `Scenario` holds the pieces of the concrete runs in `StaleRun`, `AllowAll`, `FullWindow` and `Validation`.
* **Exit attribution.** `ExitClassify` is the classifier with its kernel-log matching; `ExitReasons` and `Phrases` say
  which reason an exit is given and what the feed shows for it, `ExitRuns` says it of every exit of a run.
* **Bounded histories against unbounded logs.** `Rings`, `Attributions`, `Stderr`, `Regressions`, and
  `AuditFile` for the file that survives crashes.
* **Baselines.** `Resources` is what a run's averages and peaks are, `RunStores` the order in which stored
  runs are kept, pruned and read; `Baseline` has the statistics and the outlier rule over exact reals,
  `Rollup` what the resulting figures are of the samples; `Regressions` the detection built on them.
* **Text and codecs.** `Text`, `Utf8`, `CacheKeys`, `Fingerprint`, `KeywordMatch`.

A legal run is a sequence of events in which clocks do not run backwards and a pass escalates exactly
the pending kills whose grace period is over, in any order. A *delivered* signal carries the process
instance it hit, which the program cannot see and the theorems talk about. `log` is everything an
observer outside would write down: each attempted signal and each drained exit. The `Abs()` of each
class is the state that the functions of its module work on, so a method proved equal to a function
inherits every theorem about that function.

Strings are byte sequences, integers that the source bounds by a width are unbounded unless the width
matters (cache keys and file lengths are 64 bits), and floats are exact reals.

## Where the code and what is said about it differ

The model follows the code. Each of these is a lemma.

* `src/exit_classify.rs:20-25` says a kernel-log line must name the PID exactly. The code accepts any
  named number that starts with the PID's digits (`ExitClassify.LineNamesIffPrefix`). It is exact if
  and only if no such longer number is named without the PID being named too
  (`AttributionExactUnlessExtended`); PID 1 is blamed for PID 12 (`ExtendedPidIsMisattributed`).
* `src/runtime.rs:2071` says two opt-ins are required for any kill. An operator's SIGTERM shares the
  table of pending kills, so an armed pass escalates it to SIGKILL whatever the policy says
  (`AllowAll.ManualSigtermIsEscalated` is a whole run under a policy that condemns nobody). Every pass
  kills exactly the expired entries it finds reachable (`Gates.EscalatedExactlyWhenReachable`), and
  `Gates.AllowAllKillsIff` is the exact condition for such a policy. `Gates.TwoGates` is what does hold.
* `src/web/settings.rs:35-37` says a web change cannot bypass the invariant that kills never undercut
  alerts. The check compares what is posted with the alert sustain in the same body, or the default of
  five seconds (lines 171-190 and 268-270; lines 58-61 say missing fields keep their value, which they do
  not), while the alerts keep the sustain of the start (`src/runtime.rs:574`). A kill sustain of 5 is
  accepted against an alert sustain of 30 (`Validation.ShortKillSustainIsAccepted`). No run ever
  undercuts if and only if no accepted change brings the kill sustain below the alert sustain of the
  start (`NeverUndercutIffCovered`), and `TurnUndercutsIff` says which turns do.
* `src/governor/executor.rs:320-323` calls the rate limit inside a decision advisory. A tick that finds
  the window full silences the whole pass after it, whatever has aged out of the window by then
  (`Gates.FullWindowSilencesNextPass`; `FullWindow.FullTickSilencesThePass` is a whole run in which every gate
  of the pass is open). `Firing.SignalledIff` is the exact condition for a SIGTERM, tick and pass together.
* `src/governor/executor.rs:157-176` says the pending check stops SIGTERM from being repeated. The loop
  of `src/main.rs:1133-1152` also runs its pass after a failed tick, on the decisions of an earlier one,
  and there the same process is signalled again (`Discipline.StalePlanFiresAgain`; a whole run of that
  kind is `StaleRun.SecondSigtermHappens`). When every pass finds decisions made since the last pass
  and the last manual kill, it never is (`Discipline.NoSecondSigterm`).
* `src/runtime.rs:1527-1529` says each regression lands in the archive exactly once. Only what raises
  the queue's length is counted, so after `audit_history` regressions the counters and the archive
  stand still for good (`Regressions.CountersStopAtCap`, `FullQueueCountsNothing`).
* `src/runtime.rs:1508-1512` and `2754-2757` say the baseline excludes the run just stored, which would be the
  newest. The store sorts by spawn time, so it does if and only if all others were spawned strictly before
  it, or more of them than the window holds were spawned when it was or later
  (`Regressions.OwnBaselineExcluded`).
* With `drop_outliers` on, all runs of a history of three, which is long enough under the default
  `min_baseline_samples`, can be dropped, and then nothing is ever reported
  (`Baseline.DroppingCanEmptyTheBaseline`, `Regressions.EmptiedBaselineReportsNothing`). That takes spread on
  three metrics; with spread on at most two some run always stays, however long the history
  (`Baseline.TwoSpreadsLeaveARun`).
* A CPU average never exceeds its peak until the 32-bit sample counter stops, and can from then on
  (`Resources.AverageWithinPeakIff`; `src/lifecycle/mod.rs:30-37`).
* `src/governor/audit.rs:92-93` says a torn tail does not block replay. It does if and only if the tear
  splits a character (`AuditFile.TornFileReplays`), such as the arrow that every force-kill writes
  (`TornAtArrow`, `TornNoteFails`); and the first record appended after a tear inside a
  line is lost with that line, or the whole file with it (`AppendAfterCrash`).
* `src/fingerprint.rs:49-50` says the head already covers a file that is not longer than head and tail.
  Between the two sizes the bytes after the head are not hashed (`Fingerprint.ByteCovered`). A file
  rewritten within one second at the same length keeps its cached fingerprint
  (`RewriteWithinASecondIsStale`).
* `src/classifier/keyword_match.rs:172-173` promises a match wherever the keyword stands alone. The scan
  misses some for exactly the needles that can overlap themselves right behind a non-word byte
  (`KeywordMatch.ScanExactIffScannable`), such as `a-a` (`DashedNeedleMissed`).
* `src/runtime.rs:2495-2496` says lines after the exit are ignored. They are, if there was a line before
  it; the exit of a process that had written nothing is forgotten (`Stderr.SilentExitIsForgotten`).

## Model

| member | source | states |
|---|---|---|
| `SigkillSafety.SigkillHitsItsSigterm` | src/runtime.rs:2291-2351 | In every legal run, with processes exiting and PIDs recycled adversarially: each delivered SIGKILL, escalated or forced, answers the SIGTERM outstanding for its PID and hits the very instance that one hit; an automated one at least the grace period later and before any other SIGKILL for it. Start ticks of successive owners of one PID are taken to differ |
| `SigkillSafety.StrangerHitIff` | src/governor/executor.rs:428-507 | Wherever a run may be, exactly when a SIGKILL, escalated or forced, hits another process than the outstanding SIGTERM did: no pidfd held, the recorded start tick read back equal, and a new owner of the PID with that very tick |
| `SigkillSafety.PinnedKillIsExact` | src/governor/executor.rs:466-469 | With a pidfd held, without any assumption on start ticks: a SIGKILL is delivered if and only if the instance the SIGTERM hit still owns the PID and may be signalled, and then to it |
| `SigkillSafety.StrangerHitByTwoStepsIff` | src/governor/executor.rs:354-507 | The same for a manual SIGTERM and the force-kill after it, in terms of what the kernel showed at each |
| `SigkillSafety.SafeAfter` | src/governor/executor.rs:354-507 | Run invariant behind it: pending entries and outstanding SIGTERMs of the log correspond both ways, with time, pidfd and start tick of the instance that was hit |
| `SigkillSafety.KillAnswers` | src/governor/executor.rs:428-507 | A SIGKILL that goes through shares PID and start tick with the target of the outstanding SIGTERM, without any assumption on start ticks |
| `RateLimit.RateLimitHolds` | src/runtime.rs:2199-2244 | For every run and every closed interval as long as the window, at most `rate_limit_max_kills` automated SIGTERMs are delivered, and each found room among all delivered ones, manual included; failures count nothing; no queue of any length blocks if and only if the maximum is zero |
| `RateLimit.BudgetAfter` | src/governor/executor.rs:294-341 | Run invariant: over any part of the current window the queue of kill times counts exactly the delivered SIGTERMs of the log |
| `RateLimit.TrimCounts` | src/governor/executor.rs:294-304 | Trimming a sorted queue drops only times before the cutoff and leaves every later count as it was |
| `Sustain.BreachSinceIsStretchStart` | src/runtime.rs:1600-1636 | In every run `breach_since` holds exactly the PIDs of the last breach set, each with the stamp of the first tick of its unbroken stretch of completed ticks |
| `Sustain.StretchPush` | src/runtime.rs:1632-1636 | One more tick: a PID still in breach keeps its start, a newcomer starts now, one absent for a single tick has lost its stretch |
| `Sustain.CandidateFiresExactlyWhenDue` | src/runtime.rs:2138-2256 | At its turn in any pass of any run a candidate's SIGTERM is attempted if and only if its stretch began at least `kill_sustain_secs` before the pass, its row is there, and the window has room after the candidates before it; otherwise log, pending entries, audit and tags stay as they were |
| `Sustain.SustainedIffDue` | src/runtime.rs:2148-2176 | The code's test on `breach_since` is the condition on the history of ticks |
| `Attributions.GovernorKillIffSignalled` | src/runtime.rs:1376-1400 | In every run a categorised exit is a governor kill with reason r if and only if a signal was delivered to its PID since the PID's previous categorised exit and r is the tag of the latest; refused and failed signals never count, uncategorised exits use nothing up |
| `Attributions.RingsAreSuffixes` | src/runtime.rs:1332-1343 | In every run audit ring, completed exits and attributions are the newest part of the unbounded history, the last two in lock-step, a slot present if and only if its exit had a category |
| `Attributions.AttributedAfter` | src/runtime.rs:1372-1434 | Run invariant: tags, classifications and rings are functions of the log; each present slot is the wire form of the classification of that same exit |
| `Attributions.KillReasonFromLog` | src/exit_classify.rs:56-63 | A classification by a context taken from the log is a governor kill exactly for the latest delivered signal's tag |
| `Discipline.NoSecondSigterm` | src/main.rs:1127-1152 | In every run whose passes find fresh decisions no PID gets an automated SIGTERM while one, automated or manual, is outstanding |
| `Discipline.TurnRepeatsIff` | src/runtime.rs:2148-2244 | The exact condition, in any run: a candidate's turn repeats a SIGTERM if and only if its PID is pending at that turn, its stretch is long enough, its row present, the window has room and the signal is delivered |
| `StaleRun.SecondSigtermHappens` | src/main.rs:1133-1152 | A concrete legal run of five events, the fourth a failed tick, in which a PID gets a second automated SIGTERM while the first is outstanding |
| `Discipline.DecisionTable` | src/governor/executor.rs:49-120 | One decision per tracked PID in ascending order; marked for SIGTERM if and only if alive, not pending, condemned by policy, in breach itself or by host heat, and the window has room |
| `Discipline.TickMakesPlanFresh` | src/runtime.rs:1549-1638 | After a completed tick the candidates are distinct and none is pending |
| `Discipline.StalePlanFiresAgain` | src/main.rs:1133-1152 | After a pass that delivered a SIGTERM, a failed tick and the next pass repeat it with the first entry still pending, unless the window is full |
| `Discipline.PassKeepsPlan` | src/runtime.rs:2116-2290 | A pass leaves decisions, stretches, rows and sustain time alone and removes no pending entry |
| `Gates.TwoGates` | src/runtime.rs:2071-2126 | In every run: with `auto_actuate` off all signals are the operator's; with a policy that condemns nobody no automated SIGTERM is attempted and a delivered automated SIGKILL answers an operator's SIGTERM |
| `Gates.EscalatedExactlyWhenReachable` | src/runtime.rs:2331-2450 | In any pass of any run exactly the entries past their grace period get one turn each, and an automated SIGKILL is delivered if and only if at that turn somebody owns the PID, may be signalled, and is the pinned instance or, without a pidfd, shows the recorded start tick; neither policy nor source is asked |
| `Gates.AllowAllKillsIff` | src/runtime.rs:2071-2126 | Under a policy that condemns nobody a run contains an automated kill if and only if one of its passes is armed and visits an entry that is reachable at its turn |
| `Gates.EscalateLog` | src/governor/executor.rs:516-529 | The SIGKILL half of a pass adds one automated observation per visited entry, in order, each landing exactly when its entry is reachable |
| `AllowAll.ManualSigtermIsEscalated` | src/runtime.rs:2071-2074 | A concrete legal run, a tick, a manual SIGTERM and an armed pass after the grace period, in which a policy that condemns nobody ends in an automated kill |
| `Gates.FullWindowSilencesNextPass` | src/governor/executor.rs:239-259 | In any run, after a completed tick that finds the window full by the log, the next pass attempts no SIGTERM, whatever time it is and whoever has been in breach long enough |
| `Firing.SignalledIff` | src/runtime.rs:1549-1638 | In any run, a completed tick and the armed pass after it attempt a SIGTERM on a PID if and only if the tick found it alive, not pending, condemned by policy and in breach, the log left room at the tick, its stretch is long enough at the pass, its row is there and the log leaves room at its turn |
| `Firing.PassAttemptsIff` | src/runtime.rs:2116-2256 | In any legal pass, fresh or stale, a SIGTERM to a PID is attempted if and only if some turn of it finds every gate open |
| `FullWindow.FullTickSilencesThePass` | src/governor/executor.rs:239-259 | A concrete legal run: a process condemned at the tick and let through by every gate of the pass gets no SIGTERM, since an operator's kill filled the window at the tick |
| `Projection.TicksFindBreaches` | src/runtime.rs:1549-1638 | In every run the tables are those of the last completed tick and the limits those picked up last; and every completed tick records exactly the PIDs with a row in breach by the tables it met: bytes of VRAM or whole megabytes of RAM at or above the critical percentage of a known total, or a zone at or above the red limit and an AI row |
| `Projection.ProjectionIff` | src/governor/threshold_breach.rs:115-246 | The same of the three parts of one projection and of the set that starts stretches |
| `Projection.FullMemoryBreaches` | src/governor/threshold_breach.rs:172-203 | With limits of at most 100 percent a row that uses all of the VRAM or all of the RAM is in breach |
| `Model.FindRowFinds` | src/runtime.rs:2186-2190 | A look-up finds the first row with the PID, and none if and only if no row has it |
| `AuditTrail.PassWrites` | src/runtime.rs:2116-2450 | What every pass of every run writes: SIGTERMs named by the first row with the PID, with the candidate's reason, delivered exactly when the PID has an owner that may be signalled; then for each visited entry one SIGKILL attempt named by its row, or without one by the entry, with the action, success and text that go with who owned the PID then |
| `AuditTrail.SigkillEnds` | src/governor/executor.rs:428-507 | Sent, refused and failed, each if and only if what the tokens show and what the kernel permits; and only an OS error leaves the entry to be tried again |
| `AuditTrail.VisitedIffOverdue` | src/governor/mod.rs:129-131 | In every legal pass exactly those PIDs are visited that, by the log alone, have a SIGTERM outstanding for the grace period and no SIGKILL since that got through or was refused |
| `AuditTrail.PendingNamesItsSigterm` | src/governor/executor.rs:354-420 | In every run a pending entry bears name and category of the audit entry of the SIGTERM it stands for |
| `AuditTrail.GovernorKillText` | src/runtime.rs:2331-2450 | In every run the reason of a governor kill is the text of the latest delivered SIGTERM, or the one that goes with the source of the latest delivered SIGKILL |
| `AuditTrail.ManualKillEnds` | src/runtime.rs:1843-1940 | The operator's four answers, each as an if-and-only-if, and the whole of what each leaves |
| `AuditTrail.ForceKillEnds` | src/runtime.rs:1954-2046 | The same for a force-kill, with whom its entry names: the tracked process, else the pending entry, else nobody known |
| `Discipline.DecisionActions` | src/governor/executor.rs:122-277 | One if-and-only-if for each of the six actions a tracked PID can be given, and the triggers that a marked one's reason lists |
| `Validation.NeverUndercutIffCovered` | src/web/settings.rs:155-201 | For any start and any accepted or rejected web changes, however they interleave: no run ever attempts a SIGTERM on a breach younger than the alert sustain of the start if and only if no content the shared cell is given has a kill sustain below it |
| `Validation.TurnUndercutsIff` | src/runtime.rs:2148-2176 | At a candidate's turn in any legal run and for any alert sustain: undercut if and only if the stretch is at least the kill sustain in force and less than the alert sustain old, the row is there and the window has room |
| `Validation.ShortKillSustainIsAccepted` | src/web/settings.rs:171-190 | A valid start with an alert sustain of 30, a change that posts a kill sustain of 5, its acceptance, and that some run then undercuts |
| `Validation.ShortSustainUndercuts` | src/runtime.rs:710-728 | For every start and every posted content below the alert sustain, the run that undercuts: two ticks that find it and a pass |
| `Validation.SharedTunables.constructor` | src/web/tunables.rs:64-74 | The cell starts with the resolved thresholds and the configured kill sustain |
| `Validation.SharedTunables.UpdateSettings` | src/web/settings.rs:155-201 | Swaps both values at once if the posted ones resolve and the kill sustain, posted or read earlier, reaches the posted or default alert sustain; otherwise leaves the cell alone |
| `Validation.AcceptedIff` | src/web/settings.rs:155-201 | Exactly which changes are accepted, and the limit of each name that they put into the cell, as posted or else the default |
| `Validation.StartsIff` | src/thresholds.rs:87-187 | Exactly which configurations start, and with which limits |
| `Validation.CellsAreSane` | src/thresholds.rs:87-187 | Whatever is posted, the kill sustain is at least one second, and the critical percentages of VRAM and RAM lie between 0 and 100 |
| `Validation.FullMemoryIsABreach` | src/governor/threshold_breach.rs:172-203 | With limits out of the cell, whatever was posted, a row that uses all of the VRAM or of the RAM is in breach |
| `Validation.GraceIsAtLeastASecond` | src/config.rs:766-771 | With a validated grace, an automated SIGKILL of any run comes at least one second after the SIGTERM it answers, on the same instance, whatever is posted |
| `Validation.StepSustain` | src/runtime.rs:710-728 | Only a tick that finds new tunables changes the sustain time, a failed tick included |
| `Executor.GovernorExecutor.constructor` | src/governor/executor.rs:21-29 | Starts with no pending kill and an empty window |
| `Executor.GovernorExecutor.TrimRateLimitWindow` | src/governor/executor.rs:294-304 | Drops exactly the leading times before the cutoff |
| `Executor.GovernorExecutor.RateLimitWouldBlock` | src/governor/executor.rs:336-339 | Trims, then says whether the window is full; zero never blocks |
| `Executor.GovernorExecutor.EvaluateAll` | src/governor/executor.rs:49-291 | One decision per PID against the trimmed window; pending entries untouched |
| `Executor.GovernorExecutor.Sigterm` | src/governor/executor.rs:354-407 | A delivered SIGTERM adds one time and a fresh entry with the tokens captured before it; a failed one changes nothing |
| `Executor.GovernorExecutor.Sigkill` | src/governor/executor.rs:428-507 | Refuses without a matching token, prefers the pidfd, stamps the entry on refusal, on a vanished target and on delivery, and not on other errors |
| `Executor.GovernorExecutor.ExecuteAfterGrace` | src/governor/executor.rs:516-539 | Visits each expired entry exactly once, in any order, and reports each outcome |
| `Executor.GovernorExecutor.ClearPending` | src/governor/executor.rs:552-554 | Removes that entry and no other |
| `Runtime.GovernedRuntime.constructor` | src/runtime.rs:553-660 | The governor's state at start: nothing decided, pending, tagged or recorded |
| `Runtime.GovernedRuntime.TickOnce` | src/runtime.rs:997-1709 | Tunables first, then nothing more if collecting fails, else drain the exits and judge; equal to the machine's tick |
| `Runtime.GovernedRuntime.ApplyPendingTunables` | src/runtime.rs:710-728 | Only thresholds and sustain time can change |
| `Runtime.GovernedRuntime.PushExit` | src/runtime.rs:1332-1343 | Both rings are pushed and cut together |
| `Runtime.GovernedRuntime.AttributeExit` | src/runtime.rs:1377-1430 | Consumes the tag, classifies with it, and patches the newest slot if there is one |
| `Runtime.GovernedRuntime.DrainExit` | src/runtime.rs:1302-1560 | The governor's part of one exit: rings, tag, classification, pending entry |
| `Runtime.GovernedRuntime.ProjectBreaches` | src/runtime.rs:1581-1631 | The projection reads the previous tick's rows and platform, with host heat reaching AI rows only |
| `Runtime.GovernedRuntime.RefreshBreachSince` | src/runtime.rs:1632-1636 | Insert without overwriting, then retain, in any order of the set |
| `Runtime.GovernedRuntime.InstallSample` | src/runtime.rs:1638-1707 | Stretches, then decisions, then the new tables |
| `Runtime.GovernedRuntime.RecordGovernorAudit` | src/runtime.rs:2116-2450 | A whole pass, gated, equal to the machine's pass over the order in which entries were escalated |
| `Runtime.GovernedRuntime.CollectCandidates` | src/runtime.rs:2138-2146 | The marked decisions, in order |
| `Runtime.GovernedRuntime.ActuateCandidate` | src/runtime.rs:2148-2289 | One turn: sustain gate, row gate, rate gate, SIGTERM, bookkeeping |
| `Runtime.GovernedRuntime.EscalatePending` | src/runtime.rs:2331-2450 | Killing all and then recording all equals kill-and-record one by one |
| `Runtime.GovernedRuntime.RecordEscalation` | src/runtime.rs:2332-2450 | Identity from the row, else the pending entry, else unknown; tag only if delivered |
| `Runtime.GovernedRuntime.RecordAttempt` | src/runtime.rs:2278-2288 | Tag if and only if delivered; audit ring pushed and cut |
| `Runtime.GovernedRuntime.KillManually` | src/runtime.rs:1843-1920 | No table and unknown PID refused without effect; otherwise one SIGTERM, never rate-limited, on the same budget and the same pending table |
| `Runtime.GovernedRuntime.ForceKillManually` | src/runtime.rs:1954-2046 | One identity-checked SIGKILL with its three outcomes recorded and returned |
| `Runs.EventOps` | src/runtime.rs:997-2450 | Every legal event is a sequence of single steps that each satisfy their own guard |
| `ExitClassify.ClassifyExit` | src/exit_classify.rs:56-112 | The precedence: governor, segfault, out of memory, CUDA error, signal or code |
| `ExitRuns.RunExplainsExits` | src/runtime.rs:1372-1434 | In every run, for every exit a completed tick drains: no reason without a category, else one of eight, each if and only if the signal, the exit code, the tag of the latest delivered signal, the kernel lines and the stderr lines of that exit say so |
| `ExitReasons.ClassifierExplains` | src/exit_classify.rs:56-113 | The same of any call of the classifier: which phrases in a line count, whatever their case, and in which order the reasons are asked |
| `ExitRuns.FeedShowsReasons` | src/exit_classify.rs:127-150 | In every run each slot of the feed holds the pair of strings for the reason that its own exit was given |
| `Phrases.MessageIs` | src/exit_classify.rs:176-198 | The message kept of a CUDA error is that of the first such line, whole up to 512 bytes, else its characters that fit and an ellipsis |
| `ExitClassify.GovernorOwnsItsKills` | src/exit_classify.rs:56-63 | Governor kill if and only if the governor's flag is set, with its reason |
| `ExitClassify.DmesgKilledPid` | src/exit_classify.rs:152-165 | The early-return loop finds a line that blames the PID if and only if there is one |
| `ExitClassify.LineNamesIffPrefix` | src/exit_classify.rs:152-165 | A line blames P if and only if it mentions an OOM and some number behind `process ` or `pid=` starts with P's digits |
| `ExitClassify.AttributionExactUnlessExtended` | src/exit_classify.rs:20-25 | The documented exactness holds if and only if no longer number starting with P's digits is named unless P is |
| `ExitClassify.EqualLengthPidsAreExact` | src/exit_classify.rs:152-165 | A line whose only named number is N blames P if and only if P's digits are a prefix of N's; for equal lengths, if and only if P is N |
| `ExitClassify.ExtendedPidIsMisattributed` | src/exit_classify.rs:152-165 | A line naming PID 12 is blamed on PID 1 |
| `ExitClassify.Truncate` | src/exit_classify.rs:189-198 | The unguarded loop ends at the last character boundary within the limit |
| `ExitClassify.TruncatedIsValid` | src/exit_classify.rs:189-198 | A valid message stays valid and grows at most three bytes past the limit |
| `ExitClassify.StderrFirstCudaError` | src/exit_classify.rs:176-187 | The first line that mentions a CUDA error, or none |
| `Utf8.ClipIsValidAndTight` | src/runtime.rs:366-377 | For every valid line: a valid prefix within the limit, at most three bytes short when it cuts, and the longest such prefix |
| `Utf8.BoundarySplits` | src/runtime.rs:371-375 | Cutting a valid string where the one-byte test says boundary leaves two valid strings |
| `Utf8.ValidPrefixEndsAtBoundary` | src/runtime.rs:371-375 | Conversely a valid prefix ends at such a boundary |
| `Utf8.ValidIffEncoded` | src/governor/audit.rs:101-103 | The validity of byte strings used throughout is that of RFC 3629, section 3: some characters up to U+10FFFF without the surrogates, encoded one after the other |
| `Stderr.StderrTails.constructor` | src/runtime.rs:655 | No buffers |
| `Stderr.StderrTails.PushLine` | src/runtime.rs:364-382 | The clipped line at the back, at most 64 kept; the guarded loop ends where the boundary search does |
| `Stderr.StderrTails.RecordStderrLine` | src/runtime.rs:2498-2504 | Creates the buffer if need be, and leaves one that has exited alone |
| `Stderr.StderrTails.MarkStderrExitAt` | src/runtime.rs:2514-2518 | Stamps an existing buffer, creates none |
| `Stderr.StderrTails.ClearStderr` | src/runtime.rs:2529-2531 | Drops that buffer and no other |
| `Stderr.StderrTails.SweepExpiredStderrAt` | src/runtime.rs:2557-2559 | Drops exactly the expired buffers |
| `Stderr.StderrTails.StderrTailAt` | src/runtime.rs:2538-2546 | Empty without a buffer or after expiry, else the lines |
| `Stderr.LiveTail` | src/runtime.rs:353-391 | Over any events that neither end nor clear it, the tail is the last 64 of all lines pushed, each clipped |
| `Stderr.FrozenTail` | src/runtime.rs:2498-2546 | After the exit it stays that of the lines before it, whatever is written under that PID, for thirty seconds, then reads empty |
| `Stderr.SilentExitIsForgotten` | src/runtime.rs:2514-2518 | If nothing was written before the exit, lines written after it are collected |
| `Stderr.ClearStartsAfresh` | src/runtime.rs:2529-2531 | After a clear the tail is that of the lines since |
| `Stderr.SweepStartsAfresh` | src/runtime.rs:2557-2559 | After the sweep that follows the expiry the next owner of the PID is collected from an empty buffer |
| `Stderr.SweepSparesOthers` | src/runtime.rs:2557-2559 | Open buffers and those that have not expired survive a sweep unchanged |
| `Stderr.TailsAreBounded` | src/runtime.rs:349-383 | Over any run of valid lines each buffer holds at most 64 valid lines of at most 1024 bytes |
| `Baseline.IdentifyOutliers` | src/analysis/compare.rs:215-265 | The nested loops return, once each and in order, the runs flagged on at least one metric |
| `Baseline.FlaggedIds` | src/analysis/compare.rs:227-260 | One metric's turn: nobody below two samples or without spread, else exactly the runs more than two deviations from the median |
| `Baseline.SquaredTest` | src/analysis/compare.rs:247-257 | For any non-negative root of the variance both comparisons on the deviation are the squared ones used here |
| `Baseline.MedianNearMean` | src/analysis/compare.rs:199-209 | The median lies within one standard deviation of the mean |
| `Baseline.FarValuesAreMinority` | src/analysis/compare.rs:226-260 | Strictly fewer than half of any values lie more than two deviations from their median |
| `Baseline.OutliersAreMinority` | src/analysis/compare.rs:226-260 | On every metric with a sample, twice the number of flagged runs is less than the number of samples |
| `Baseline.RollupIgnoresOrder` | src/analysis/compare.rs:127-194 | For both strategies and both drop settings, permuted records give the same centre, dispersion and count on every metric and the same outlier list |
| `Rollup.RollupDescribes` | src/analysis/compare.rs:127-194 | For every metric, strategy and drop setting: there is a figure if and only if a sample is left; its count, its variance around the arithmetic mean, and its centre, mean or median, are those of one sample for each record that has the metric and was not dropped |
| `Rollup.OutliersStandOut` | src/analysis/compare.rs:215-265 | The outlier list is, in order, the runs that on some metric with two samples and some spread lie more than two deviations from the median |
| `Rollup.MedianHalves` | src/analysis/compare.rs:199-209 | At least half of the samples lie at or below the median and at least half at or above it |
| `Rollup.SamplesUnique` | src/analysis/compare.rs:226-234 | There is only one list of samples of a metric |
| `Baseline.TwoSpreadsLeaveARun` | src/analysis/compare.rs:132-140 | With distinct run ids and spread on at most two metrics, dropping outliers leaves a run, and a sample on every metric that all stored runs have |
| `Baseline.DroppingCanEmptyTheBaseline` | src/analysis/compare.rs:132-140 | Two is sharp: three runs that the program can have recorded, with distinct ids and spread on three metrics, each flagged on its own, leave no run and every metric empty |
| `Baseline.RecordedIsStorable` | src/lifecycle/mod.rs:205-240 | Every recorded run has all metrics of the process, its CPU average between zero and its peak, and the one zero if and only if the other is |
| `Resources.ResourceStats.constructor` | src/lifecycle/mod.rs:21-28 | Starts as the figures of no reading |
| `Resources.ResourceStats.Record` | src/lifecycle/mod.rs:30-37 | One more reading: sum of the readings clamped at zero, saturating count, and true maxima of CPU, RSS and VRAM |
| `Resources.ResourceStats.RecordPeaks` | src/lifecycle/mod.rs:44-53 | A reading without CPU raises the memory peaks and leaves CPU figures and count alone |
| `Resources.ResourceStats.AvgCpuPct` | src/lifecycle/mod.rs:55-61 | The mean of the clamped readings, zero without any, over the stopped count past 32 bits |
| `Resources.AverageWithinPeakIff` | src/lifecycle/mod.rs:30-61 | All histories with n CPU readings have their average at or below their peak if and only if n fits the 32-bit counter |
| `Resources.AverageZeroIffPeakZero` | src/lifecycle/mod.rs:30-61 | An average is never negative, and zero if and only if the peak is |
| `RunStores.RunStore.constructor` | src/storage/run_store.rs:456-504 | Starts with the indexed runs and the limit |
| `RunStores.RunStore.Append` | src/storage/run_store.rs:515-579 | The record goes to the back of its model's index, then the index is pruned |
| `RunStores.RunStore.PruneIfNeeded` | src/storage/run_store.rs:589-634 | Removes the oldest by spawn time beyond the limit, one by one |
| `RunStores.RunStore.RemoveFromIndex` | src/storage/run_store.rs:715-720 | Retains every other run, in order |
| `RunStores.SortIsStable` | src/storage/run_store.rs:768-772 | The sort is in order and keeps runs of equal key in their old order |
| `RunStores.StableOrderIsUnique` | src/storage/run_store.rs:768-772 | No other list does both |
| `RunStores.AppendKeepsNewest` | src/storage/run_store.rs:581-634 | After an append the index keeps its limit; nothing evicted is newer than anything kept; the new run is evicted if and only if too few others are as old as it is, and otherwise is last |
| `RunStores.RecentAreNewest` | src/storage/run_store.rs:726-773 | The n newest by spawn time, newest first, or all |
| `Regressions.DetectRegressionsWith` | src/analysis/compare.rs:362-466 | The probe loop yields the findings of all probes in order, or none below the sample minimum, and nothing of the lowest severity |
| `Regressions.ReportedIffWorse` | src/analysis/compare.rs:435-463 | A metric is reported if and only if there are enough samples, both sides have a value, the baseline is not about zero and the run is worse by the warning percentage, critical if and only if by the critical one; reported runs really are worse for a positive baseline and never for a negative one, given a positive warning percentage |
| `Regressions.FoundIff` | src/analysis/compare.rs:362-466 | By metric: CPU, memory and power are reported if and only if comparable and higher by the warning percentage, throughput if and only if lower by it, uptime never; each finding says by how much and how badly; at most one for a metric, in a fixed order |
| `Regressions.EventsCarryFindings` | src/runtime.rs:2751-2812 | The events of one exit carry the findings in order, each with the model, its own clock reading and the number of runs compared with; none when too few |
| `Regressions.OwnBaselineExcluded` | src/runtime.rs:2759-2770 | The run just appended is left out of its own baseline if and only if no other was spawned when it was or later, or more than the window's number were; the baseline has at most the window's number of runs if and only if the former holds or the whole index is that short |
| `Regressions.EmptiedBaselineReportsNothing` | src/runtime.rs:2772-2787 | After the three runs above, with outliers dropped, no run is reported |
| `Regressions.RegressionLog.CheckRegressions` | src/runtime.rs:2751-2812 | Selects the prior runs, rolls them up, detects, and pushes each finding into the bounded queue |
| `Regressions.RegressionLog.PushFindings` | src/runtime.rs:2788-2811 | Push and cut for each finding in turn |
| `Regressions.RegressionLog.RecordExit` | src/runtime.rs:1508-1537 | Counts and mirrors exactly what lies beyond the old length; keeps the queue within its cap and the counters in agreement with the archive |
| `Regressions.CountedAreTheNewest` | src/runtime.rs:1508-1537 | From at or below the cap: counted plus evicted equals added, the counted ones are the newest, and all are counted if and only if nothing is evicted |
| `Regressions.CountersStopAtCap` | src/runtime.rs:1508-1537 | Over any run of exits the queue holds the newest events and the number ever counted is the smaller of the cap and all events; all were counted if and only if they fit |
| `Regressions.FullQueueCountsNothing` | src/runtime.rs:1530-1536 | With a full queue an exit counts nothing |
| `Regressions.CountersMatchArchive` | src/runtime.rs:1530-1536 | Each counter is the number of mirrored events with its model and metric |
| `Rings.SuffixIsNewest` | src/runtime.rs:2807-2810 | What a bounded queue keeps are its newest elements in order |
| `Rings.PushAllKeepsNewest` | src/runtime.rs:2807-2810 | Push-and-cut one by one is the unbounded log cut once |
| `AuditFile.AuditWriter.constructor` | src/governor/audit.rs:48-62 | Opening keeps what is there |
| `AuditFile.AuditWriter.AppendSerializable` | src/governor/audit.rs:73-89 | Adds the record's bytes and one line break |
| `AuditFile.Replay` | src/governor/audit.rs:94-116 | The line loop: blank and malformed lines skipped, a carriage return stripped, a line that is not UTF-8 fails the whole |
| `AuditFile.WholeFileReplays` | src/governor/audit.rs:73-116 | An undamaged file replays to all entries in order |
| `AuditFile.TornFileReplays` | src/governor/audit.rs:92-116 | For any cut: fails if and only if a character is split, else exactly the entries whose text is fully there, in order |
| `AuditFile.LinesReplay` | src/governor/audit.rs:94-116 | For a file of any complete lines: fails if and only if some line is not UTF-8, else gives in order what the lines hold that are not blank and parse; two-byte line breaks read as one |
| `AuditFile.TornAtArrow` | src/runtime.rs:1980 | A file cut one or two bytes into an arrow of any record fails to replay; cut before or after the arrow it gives the records before that one |
| `AuditFile.TornNoteFails` | src/governor/audit.rs:94-116 | The smallest case: a lawful serialiser, a file of one record that replays whole and fails after its first two bytes |
| `AuditFile.AppendAfterCrash` | src/governor/audit.rs:48-116 | Reopened after a cut: between records nothing is lost; inside a record that one and the next appended are; inside a character replay fails |
| `CacheKeys.KeyRoundTrip` | src/fingerprint.rs:85-100 | Every key reads back from its printed form, negative times included |
| `CacheKeys.KeyStrInjective` | src/fingerprint.rs:85-87 | Distinct keys print differently |
| `CacheKeys.KeyIsPrinted` | src/fingerprint.rs:85-87 | The printed form is device, inode, time and length in decimal with colons between |
| `Fingerprint.HashedLayout` | src/fingerprint.rs:38-58 | What is hashed, in order: eight bytes worth the length, least first, the head that was read, and the tail of a file longer than both |
| `Fingerprint.PreimageEqualIffAgree` | src/fingerprint.rs:38-58 | Two files hash the same bytes if and only if lengths agree, heads agree, and tails agree when longer than head and tail |
| `Fingerprint.InjectiveUpToHead` | src/fingerprint.rs:44-46 | Up to the head size, if and only if they are equal |
| `Fingerprint.ByteCovered` | src/fingerprint.rs:48-55 | Changing a byte shows if and only if it lies in the head, or in the tail of a file longer than both |
| `Fingerprint.ShortReadShows` | src/fingerprint.rs:44-46 | A read that stops short gives the same file other bytes |
| `Fingerprint.LoadCache` | src/fingerprint.rs:199-212 | Every entry whose key parses and nothing else, whatever the order; empty for a missing, malformed or foreign-version file |
| `Fingerprint.Fingerprinter.constructor` | src/fingerprint.rs:116-126 | Loads the file if there is a path, and starts clean |
| `Fingerprint.Fingerprinter.Fingerprint` | src/fingerprint.rs:132-155 | Hit, miss and the two failures |
| `Fingerprint.Fingerprinter.Persist` | src/fingerprint.rs:159-191 | What each way of saving or failing leaves in memory, flag and file |
| `Fingerprint.SaveEnds` | src/fingerprint.rs:159-185 | Memory, mark and file after every way of saving: only a missing directory keeps the mark, a torn write leaves a malformed file, a good one the version and exactly the entries |
| `Fingerprint.TornSaveForgets` | src/fingerprint.rs:159-212 | A torn save is not made good: saving again writes nothing and the next session starts empty |
| `Fingerprint.LoadAfterSave` | src/fingerprint.rs:159-212 | A saved cache loads back exactly |
| `Fingerprint.CacheIsTransparent` | src/fingerprint.rs:116-212 | If the key determines the content, then after any run of hits, misses, saves, failed saves and reopenings a query answers what hashing afresh would |
| `Fingerprint.KeysStay` | src/fingerprint.rs:116-212 | With saves that succeed no key is forgotten over any number of sessions |
| `Fingerprint.RewriteWithinASecondIsStale` | src/fingerprint.rs:132-155 | Two contents under one key answer with the first |
| `KeywordMatch.ScanExactIffScannable` | src/classifier/keyword_match.rs:174-182 | The non-overlapping scan agrees with "some occurrence stands alone" on every haystack if and only if the needle cannot overlap itself right behind a non-word byte |
| `KeywordMatch.WordNeedlesAreScannable` | src/classifier/keyword_match.rs:184-189 | Needles of letters and digits are such needles |
| `KeywordMatch.KeywordRule` | src/classifier/keyword_match.rs:159-170 | The documented rule for short and long keywords |
| `KeywordMatch.WordCharacters` | src/classifier/keyword_match.rs:184-189 | The characters of words are the ASCII letters and digits |
| `KeywordMatch.TrapFoolsTheScan` | src/classifier/keyword_match.rs:174-182 | For every other needle a text that contains it as a word of its own and is not matched |
| `KeywordMatch.DashedNeedleMissed` | src/classifier/keyword_match.rs:174-182 | `a-a` stands alone in `xa-a-a` and is missed |

## Left out

- SigkillSafety.SigkillHitsItsSigterm: each signal with its identity capture or check is one step; the window between the check and `kill` on the start-tick path is not modelled.
- Kernel: wall clock and monotonic clock are one clock that does not run backwards; every tick and every pass step may read a later time.
- Runtime.GovernedRuntime.ProjectBreaches: percentages are exact reals, without the rounding to `f32` and without NaN; rows have distinct PIDs, of which the source would take the first in decisions and any in stretches.
- Executor.GovernorExecutor.ExecuteAfterGrace: all grace periods are checked at one reading of the clock; the source reads it once per entry, so an entry that expires in between may be visited one pass earlier there.
- Executor.GovernorExecutor.EvaluateAll: of the reason texts only the trigger list is kept; measured values and names inside them are not.
- Runtime.GovernedRuntime.RecordAttempt: error messages and timestamps of audit entries, and the mirror of kills and exits into the history archive.
- Runtime.GovernedRuntime.DrainExit: stderr tails arrive as an input there; the buffers have their own machine in `Stderr`. Run store, summary store, alerts and telemetry are not part of it.
- Baseline.IdentifyOutliers: exact reals for `f32`; a non-finite sample counts as absent, and the 32-bit width of the sample count is not modelled.
- RunStores.RunStore.Append: the files, failing writes and deletions, tombstones and unreadable records; one model's index stands for all.
- Resources.ResourceStats.AvgCpuPct: exact reals for `f32`; the 64-bit width of byte counts is not modelled.
- Regressions.ReportedIffWorse: current values that are NaN, which the code reports.
- Regressions.RegressionLog.RecordExit: the archive is the sequence of events handed to it, without its own cap.
- AuditFile.Replay: serialiser and parser are parameters with stated laws; JSON itself, failed writes and the lock are not modelled.
- Fingerprint.CacheIsTransparent: SHA-256 is a function of the key's content; metadata and content are read at once, and nobody else writes the cache file.
- KeywordMatch.KeywordRule: lower-casing is a parameter; the keyword tables and the classification order are left out.
- Validation.NeverUndercutIffCovered: the alerts themselves are not modelled, only the sustain time they are built with; so it is not claimed that an alert was shown. Of the configuration check only the two minimums the protocol relies on are modelled; the rest are range checks of single fields. A changed file on disk and a restart are not part of a run.
- Sampling, NVML, `/proc` and journal readers, the probe manager, lifecycle tracking beyond the resource figures and history rings: inputs chosen by the environment.
- User interface, web server, authentication, command line, exporter and onboarding.
