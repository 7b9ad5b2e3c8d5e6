/** When an exit is given which of the eight reasons, said from the signal, the exit code, the governor's tag and
    the bytes of the log lines alone (src/exit_classify.rs). */
module ExitReasons {
  import opened Options
  import opened Text
  import opened ExitClassify
  import opened Phrases

  /** The facts an exit is judged by: the governor's tag, and what the two logs say. */
  datatype Facts = Facts(tag: Option<Bytes>, signal: Option<int>, exitCode: Option<int>, ram: bool, vram: bool)

  /** The kernel log counts for a process that was killed, or whose end nobody saw. */
  ghost function FactsOf(tag: Option<Bytes>, signal: Option<int>, exitCode: Option<int>, pid: nat, dmesg: seq<Bytes>,
                         stderr: seq<Bytes>): Facts
  {
    Facts(tag, signal, exitCode,
          (signal == Some(9) || signal == None) && BlamedFor(dmesg, pid),
          exists line <- stderr :: SaysCudaOom(line))
  }

  /** Neither tagged nor a segmentation fault nor out of either memory. */
  predicate NothingElse(f: Facts) {
    f.tag == None && f.signal != Some(11) && !f.ram && !f.vram
  }

  /** One if-and-only-if for each reason. */
  ghost predicate Explains(reason: ExitReason, f: Facts, stderr: seq<Bytes>) {
    var quiet := NothingElse(f) && forall line <- stderr :: !SaysCudaError(line);
    && (forall text :: reason == GovernorKill(text) <==> f.tag == Some(text))
    && (reason == Segfault <==> f.tag == None && f.signal == Some(11))
    && (forall ram, vram :: reason == OutOfMemory(ram, vram)
          <==> f.tag == None && f.signal != Some(11) && (ram || vram) && ram == f.ram && vram == f.vram)
    && (forall msg :: reason == CudaError(msg) <==> NothingElse(f) && msg.Some? && CudaMessage(stderr, msg.value))
    && (reason == CleanExit <==> quiet && f.signal == None && f.exitCode == Some(0))
    && (forall code :: reason == Crash(code) <==> quiet && f.signal == None && f.exitCode == Some(code) && code != 0)
    && (forall n :: reason == UserSignal(n) <==> quiet && f.signal == Some(n))
    && (reason == Unknown <==> quiet && f.signal == None && f.exitCode == None)
  }

  /** What the governor left behind; a kill without a text counts as the empty one. */
  function TagIn(ctx: ExitContext): Option<Bytes> {
    if !ctx.killedByGovernor then None
    else if ctx.governorReason.Some? then ctx.governorReason
    else Some([])
  }

  /** The classifier explains every exit. */
  lemma ClassifierExplains(pid: nat, signal: Option<int>, exitCode: Option<int>, ctx: ExitContext)
    ensures Explains(Classify(pid, signal, exitCode, ctx),
                     FactsOf(TagIn(ctx), signal, exitCode, pid, ctx.dmesgLines, ctx.stderrLines), ctx.stderrLines)
  {
    BlamedIff(ctx.dmesgLines, pid);
    MessageIs(ctx.stderrLines);
    hide SaysCudaError, SaysCudaOom, IsCudaOom, BlamedFor, KernelLogNames, CudaMessage, Truncated, FirstCudaError;
    forall line <- ctx.stderrLines
      ensures SaysCudaOom(line) <==> IsCudaOom(line)
    {
      CudaPhrases(line);
    }
  }
}
