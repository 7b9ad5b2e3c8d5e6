/** Why a process died: the precedence of the exit classifier, the kernel-log PID match and the
    wire form of a reason (src/exit_classify.rs). */
module ExitClassify {
  import opened Options
  import opened Text
  import Utf8

  datatype ExitReason =
    | CleanExit
    | UserSignal(signal: int)
    | GovernorKill(reason: Bytes)
    | Segfault
    | OutOfMemory(ram: bool, vram: bool)
    | CudaError(lastMsg: Option<Bytes>)
    | Crash(exitCode: int)
    | Unknown

  const MAX_LAST_MSG_LEN := 512

  /** U+2026, appended by `truncate` when it cuts. */
  const ELLIPSIS: Bytes := [0xE2, 0x80, 0xA6]

  datatype ExitContext = ExitContext(
    dmesgLines: seq<Bytes>,
    stderrLines: seq<Bytes>,
    killedByGovernor: bool,
    governorReason: Option<Bytes>)

  /** Classification by signal and exit status alone. */
  function FromStatus(signal: Option<int>, exitCode: Option<int>): ExitReason {
    match (signal, exitCode)
    case (Some(sig), _) => if sig == 11 then Segfault else UserSignal(sig)
    case (None, Some(code)) => if code == 0 then CleanExit else Crash(code)
    case (None, None) => Unknown
  }

  predicate MentionsOom(line: Bytes) {
    var lower := AsciiLower(line);
    || Contains(lower, Ascii("out of memory"))
    || Contains(lower, Ascii("oom-kill"))
    || Contains(lower, Ascii("oom_reaper"))
  }

  function ProcessToken(pid: nat): Bytes {
    Ascii("process ") + Decimal(pid)
  }

  function PidToken(pid: nat): Bytes {
    Ascii("pid=") + Decimal(pid)
  }

  predicate LineNames(line: Bytes, pid: nat) {
    MentionsOom(line) && (Contains(line, ProcessToken(pid)) || Contains(line, PidToken(pid)))
  }

  predicate KernelLogNames(lines: seq<Bytes>, pid: nat) {
    exists line <- lines :: LineNames(line, pid)
  }

  predicate IsCudaOom(line: Bytes) {
    var lower := AsciiLower(line);
    || Contains(lower, Ascii("cuda out of memory"))
    || Contains(lower, Ascii("cuda_error_out_of_memory"))
    || (Contains(lower, Ascii("cudamalloc")) && Contains(lower, Ascii("out of memory")))
  }

  predicate IsCudaError(line: Bytes) {
    var lower := AsciiLower(line);
    || Contains(lower, Ascii("cuda error"))
    || Contains(lower, Ascii("cudaerror"))
    || Contains(lower, Ascii("cuda_error_"))
  }

  function FirstCudaError(lines: seq<Bytes>): Option<Bytes> {
    if lines == [] then None
    else if IsCudaError(lines[0]) then Some(lines[0])
    else FirstCudaError(lines[1..])
  }

  function Truncated(t: Bytes, limit: nat): Bytes {
    if |t| <= limit then t else Utf8.Clip(t, limit) + ELLIPSIS
  }

  function Classify(pid: nat, signal: Option<int>, exitCode: Option<int>, ctx: ExitContext): ExitReason {
    if ctx.killedByGovernor then
      GovernorKill(match ctx.governorReason case Some(r) => r case None => [])
    else if signal == Some(11) then Segfault
    else
      var kernelOom := (signal == Some(9) || signal == None) && KernelLogNames(ctx.dmesgLines, pid);
      var cudaOom := exists line <- ctx.stderrLines :: IsCudaOom(line);
      if kernelOom || cudaOom then OutOfMemory(kernelOom, cudaOom)
      else match FirstCudaError(ctx.stderrLines)
        case Some(msg) => CudaError(Some(Truncated(msg, MAX_LAST_MSG_LEN)))
        case None => FromStatus(signal, exitCode)
  }

  /** The governor owns the attribution exactly when the context says it signalled the process. */
  lemma GovernorOwnsItsKills(pid: nat, signal: Option<int>, exitCode: Option<int>, ctx: ExitContext)
    requires ctx.killedByGovernor <==> ctx.governorReason.Some?
    ensures forall r :: Classify(pid, signal, exitCode, ctx) == GovernorKill(r) <==> ctx.governorReason == Some(r)
  {
  }

  /** The `(kind, detail)` pair the activity feed shows. */
  datatype Attribution = Attribution(kind: Bytes, detail: Option<Bytes>)

  function SignedDecimal(n: int): Bytes {
    if n < 0 then Ascii("-") + Decimal(-n) else Decimal(n)
  }

  function ToWire(reason: ExitReason): Attribution {
    match reason
    case CleanExit => Attribution(Ascii("clean"), None)
    case UserSignal(sig) => Attribution(Ascii("signal"), Some(Ascii("signal ") + SignedDecimal(sig)))
    case GovernorKill(r) => Attribution(Ascii("governor"), Some(r))
    case Segfault => Attribution(Ascii("segfault"), None)
    case OutOfMemory(ram, vram) =>
      Attribution(Ascii("oom"), Some(Ascii(
        if ram && vram then "RAM and GPU memory"
        else if ram then "RAM"
        else if vram then "GPU memory"
        else "unknown")))
    case CudaError(msg) => Attribution(Ascii("cuda"), msg)
    case Crash(code) => Attribution(Ascii("crash"), Some(Ascii("exit ") + SignedDecimal(code)))
    case Unknown => Attribution(Ascii("unknown"), None)
  }

  // ---------------------------------------------------------------- the loops of the source

  /** The early-return scan over kernel-log lines. */
  method DmesgKilledPid(lines: seq<Bytes>, pid: nat) returns (found: bool)
    ensures found <==> KernelLogNames(lines, pid)
  {
    var tokenA := ProcessToken(pid);
    var tokenB := PidToken(pid);
    for i := 0 to |lines|
      invariant forall j :: 0 <= j < i ==> !LineNames(lines[j], pid)
    {
      var lower := AsciiLower(lines[i]);
      var mentionsOom := || Contains(lower, Ascii("out of memory"))
                         || Contains(lower, Ascii("oom-kill"))
                         || Contains(lower, Ascii("oom_reaper"));
      if mentionsOom && (Contains(lines[i], tokenA) || Contains(lines[i], tokenB)) {
        assert LineNames(lines[i], pid);
        return true;
      }
    }
    return false;
  }

  /** The boundary search of `truncate`; it needs no lower bound because 0 is a boundary. */
  method Truncate(t: Bytes, limit: nat) returns (r: Bytes)
    ensures r == Truncated(t, limit)
  {
    if |t| <= limit {
      return t;
    }
    var end := limit;
    while !Utf8.IsCharBoundary(t, end)
      invariant 0 <= end <= limit
      invariant Utf8.ClipEnd(t, end) == Utf8.ClipEnd(t, limit)
      decreases end
    {
      end := end - 1;
    }
    r := t[..end] + ELLIPSIS;
  }

  method StderrFirstCudaError(lines: seq<Bytes>) returns (r: Option<Bytes>)
    ensures r == FirstCudaError(lines)
  {
    for i := 0 to |lines|
      invariant FirstCudaError(lines) == FirstCudaError(lines[i..])
    {
      if IsCudaError(lines[i]) {
        return Some(lines[i]);
      }
    }
    return None;
  }

  method ClassifyExit(pid: nat, signal: Option<int>, exitCode: Option<int>, ctx: ExitContext)
    returns (reason: ExitReason)
    ensures reason == Classify(pid, signal, exitCode, ctx)
  {
    if ctx.killedByGovernor {
      return GovernorKill(match ctx.governorReason case Some(r) => r case None => []);
    }
    if signal == Some(11) {
      return Segfault;
    }
    var kernelOom := false;
    if signal == Some(9) || signal == None {
      kernelOom := DmesgKilledPid(ctx.dmesgLines, pid);
    }
    var cudaOom := exists line <- ctx.stderrLines :: IsCudaOom(line);
    if kernelOom || cudaOom {
      return OutOfMemory(kernelOom, cudaOom);
    }
    var msg := StderrFirstCudaError(ctx.stderrLines);
    if msg.Some? {
      var short := Truncate(msg.value, MAX_LAST_MSG_LEN);
      return CudaError(Some(short));
    }
    return FromStatus(signal, exitCode);
  }

  /** Truncating a valid message leaves a valid message of at most three bytes more than the limit. */
  lemma TruncatedIsValid(t: Bytes, limit: nat)
    requires Utf8.Valid(t)
    ensures Utf8.Valid(Truncated(t, limit)) && |Truncated(t, limit)| <= limit + 3
  {
    if |t| > limit {
      Utf8.ClipIsValidAndTight(t, limit);
      assert ELLIPSIS[3..] == [];
      assert Utf8.CharLength(ELLIPSIS) == 3 && Utf8.Valid(ELLIPSIS);
      Utf8.ValidConcat(Utf8.Clip(t, limit), ELLIPSIS);
    }
  }

  // ---------------------------------------------------------------- which PIDs a log line names

  /** The maximal run of digits starting at offset `i`. */
  function DigitRun(t: Bytes, i: nat): (run: Bytes)
    requires i <= |t|
    ensures AllDigits(run) && i + |run| <= |t| && t[i..i + |run|] == run
    ensures i + |run| < |t| ==> !IsDigit(t[i + |run|])
    decreases |t| - i
  {
    if i < |t| && IsDigit(t[i]) then [t[i]] + DigitRun(t, i + 1) else []
  }

  /** `run` is all the digits after some `process ` or `pid=` in the line. */
  ghost predicate NamesRun(line: Bytes, run: Bytes) {
    || (exists i: nat :: i <= |line| && OccursAt(line, Ascii("process "), i) && run == DigitRun(line, i + 8))
    || (exists i: nat :: i <= |line| && OccursAt(line, Ascii("pid="), i) && run == DigitRun(line, i + 4))
  }

  /** What the module comment promises: some out-of-memory line names exactly this PID. */
  ghost predicate NamedExactly(lines: seq<Bytes>, pid: nat) {
    exists line <- lines :: MentionsOom(line) && NamesRun(line, Decimal(pid))
  }

  /** Some out-of-memory line names a longer number that starts with this PID's digits. */
  ghost predicate NamedExtended(lines: seq<Bytes>, pid: nat) {
    exists line <- lines, run :: MentionsOom(line) && NamesRun(line, run) && Decimal(pid) < run
  }

  lemma TokenIsRunPrefix(line: Bytes, word: Bytes, digits: Bytes, i: nat)
    requires AllDigits(digits) && i + |word| <= |line|
    ensures OccursAt(line, word + digits, i)
            <==> OccursAt(line, word, i) && digits <= DigitRun(line, i + |word|)
  {
    var j := i + |word|;
    var run := DigitRun(line, j);
    if OccursAt(line, word + digits, i) {
      assert line[i..j] == line[i..i + |word + digits|][..|word|] == word;
      assert line[j..j + |digits|] == line[i..i + |word + digits|][|word|..] == digits;
      assert forall k :: 0 <= k < |digits| ==> line[j..j + |digits|][k] == line[j + k] == digits[k];
      assert forall k :: j <= k < j + |digits| ==> IsDigit(digits[k - j]) && digits[k - j] == line[k];
      assert digits == line[j..j + |run|][..|digits|] == run[..|digits|];
    }
    if OccursAt(line, word, i) && digits <= run {
      assert line[j..j + |digits|] == line[j..j + |run|][..|digits|];
      assert line[i..i + |word + digits|] == line[i..j] + line[j..j + |digits|];
    }
  }

  lemma ContainsTokenIffRunPrefix(line: Bytes, word: Bytes, digits: Bytes)
    requires AllDigits(digits)
    ensures Contains(line, word + digits)
            <==> exists i: nat :: i <= |line| && OccursAt(line, word, i) && digits <= DigitRun(line, i + |word|)
  {
    forall i: nat | i + |word| <= |line|
      ensures OccursAt(line, word + digits, i)
              <==> OccursAt(line, word, i) && digits <= DigitRun(line, i + |word|)
    {
      TokenIsRunPrefix(line, word, digits, i);
    }
  }

  /** Exactly what a line has to contain to be taken as naming `pid`: some named number that
      *starts with* the digits of `pid`. */
  lemma LineNamesIffPrefix(line: Bytes, pid: nat)
    ensures LineNames(line, pid)
            <==> MentionsOom(line) && exists run :: NamesRun(line, run) && Decimal(pid) <= run
  {
    hide DigitRun, MentionsOom, Decimal, Ascii, Contains;
    ContainsTokenIffRunPrefix(line, Ascii("process "), Decimal(pid));
    ContainsTokenIffRunPrefix(line, Ascii("pid="), Decimal(pid));
    if Contains(line, ProcessToken(pid)) {
      var i: nat :| i <= |line| && OccursAt(line, Ascii("process "), i) && Decimal(pid) <= DigitRun(line, i + 8);
      assert NamesRun(line, DigitRun(line, i + 8));
    }
    if Contains(line, PidToken(pid)) {
      var i: nat :| i <= |line| && OccursAt(line, Ascii("pid="), i) && Decimal(pid) <= DigitRun(line, i + 4);
      assert NamesRun(line, DigitRun(line, i + 4));
    }
  }

  /** The documented exactness, and exactly when it fails: a line is blamed on a PID it does not
      name just when a longer number starting with the PID's digits is named instead. */
  lemma AttributionExactUnlessExtended(lines: seq<Bytes>, pid: nat)
    ensures KernelLogNames(lines, pid) <==> NamedExactly(lines, pid) || NamedExtended(lines, pid)
    ensures (KernelLogNames(lines, pid) <==> NamedExactly(lines, pid))
            <==> (NamedExtended(lines, pid) ==> NamedExactly(lines, pid))
  {
    forall line <- lines
      ensures LineNames(line, pid)
              <==> MentionsOom(line) && exists run :: NamesRun(line, run) && Decimal(pid) <= run
    {
      LineNamesIffPrefix(line, pid);
    }
    if KernelLogNames(lines, pid) && !NamedExtended(lines, pid) {
      var line :| line in lines && LineNames(line, pid);
      var run :| NamesRun(line, run) && Decimal(pid) <= run;
      assert run == Decimal(pid);
    }
    if NamedExactly(lines, pid) {
      var line :| line in lines && MentionsOom(line) && NamesRun(line, Decimal(pid));
      assert LineNames(line, pid);
    }
    if NamedExtended(lines, pid) {
      var line, run :| line in lines && MentionsOom(line) && NamesRun(line, run) && Decimal(pid) < run;
      assert LineNames(line, pid);
    }
  }

  /** A line that names one number only is blamed on that number alone among PIDs of its length. */
  lemma EqualLengthPidsAreExact(line: Bytes, named: nat, pid: nat)
    requires MentionsOom(line) && NamesRun(line, Decimal(named))
    requires forall run :: NamesRun(line, run) ==> run == Decimal(named)
    ensures LineNames(line, pid) <==> Decimal(pid) <= Decimal(named)
    ensures |Decimal(pid)| == |Decimal(named)| ==> (LineNames(line, pid) <==> pid == named)
  {
    LineNamesIffPrefix(line, pid);
    if Decimal(pid) == Decimal(named) {
      DecimalInjective(pid, named);
    }
  }

  /** The family is not empty: a line naming PID 12 is blamed on PID 1 as well. */
  lemma ExtendedPidIsMisattributed()
    ensures var lines := [Ascii("oom-kill pid=12")];
            KernelLogNames(lines, 1) && !NamedExactly(lines, 1)
  {
    var line := Ascii("oom-kill pid=12");
    assert line == [111, 111, 109, 45, 107, 105, 108, 108, 32, 112, 105, 100, 61, 49, 50];
    assert AsciiLower(line) == line;
    assert OccursAt(line, Ascii("oom-kill"), 0);
    assert OccursAt(line, PidToken(1), 9);
    assert LineNames(line, 1);
    forall run | NamesRun(line, run)
      ensures run != Decimal(1)
    {
      OnlyMention(line, run);
      assert DigitRun(line, 13) == [49] + DigitRun(line, 14);
      assert DigitRun(line, 14) == [50] + DigitRun(line, 15);
    }
  }

  lemma OnlyMention(line: Bytes, run: Bytes)
    requires line == [111, 111, 109, 45, 107, 105, 108, 108, 32, 112, 105, 100, 61, 49, 50]
    requires NamesRun(line, run)
    ensures run == DigitRun(line, 13)
  {
    assert Ascii("process ")[1] == 114 && 114 !in line;
    AbsentByte(line, Ascii("process "), 114);
    forall i: nat | OccursAt(line, Ascii("pid="), i)
      ensures i == 9
    {
      OccurrenceBytes(line, Ascii("pid="), i);
      assert Ascii("pid=")[0] == 112 && line[i + 0] == 112;
    }
  }
}
