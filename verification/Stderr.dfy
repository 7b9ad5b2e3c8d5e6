/** The transient stderr tails of src/runtime.rs: per PID a bounded ring of clipped lines that turns
    read-only when the process exits and expires thirty seconds later. */
module Stderr {
  import opened Options
  import opened Text
  import opened Kernel
  import opened Rings
  import Utf8

  const MAX_LINES := 64
  const MAX_LINE_BYTES := 1024
  const EXPIRY: Time := 30 * SECOND

  datatype StderrBuffer = StderrBuffer(lines: seq<Bytes>, exitAt: Option<Time>)

  predicate Expired(buf: StderrBuffer, now: Time) {
    buf.exitAt.Some? && now >= buf.exitAt.value + EXPIRY
  }

  /** What reaches the buffers. A read changes nothing and is not an event. */
  datatype StderrEvent =
    | Line(pid: Pid, line: Bytes)
    | Exited(pid: Pid, at: Time)
    | Cleared(pid: Pid)
    | Swept(at: Time)

  class StderrTails {
    var pidStderr: map<Pid, StderrBuffer>

    constructor ()
      ensures pidStderr == map[]
    {
      pidStderr := map[];
    }

    /** Clip at a character boundary, push, and drop the oldest line over the limit. */
    method PushLine(lines: seq<Bytes>, line: Bytes) returns (r: seq<Bytes>)
      ensures r == PushBounded(lines, Utf8.Clip(line, MAX_LINE_BYTES), MAX_LINES)
    {
      var clipped := line;
      if |line| > MAX_LINE_BYTES {
        var end := MAX_LINE_BYTES;
        while end > 0 && !Utf8.IsCharBoundary(line, end)
          invariant 0 <= end <= MAX_LINE_BYTES
          invariant Utf8.ClipEnd(line, end) == Utf8.ClipEnd(line, MAX_LINE_BYTES)
        {
          end := end - 1;
        }
        clipped := line[..end];
      }
      r := KeepNewest(lines + [clipped], MAX_LINES);
    }

    method RecordStderrLine(pid: Pid, line: Bytes)
      modifies this
      ensures pidStderr == Apply(old(pidStderr), Line(pid, line))
    {
      if pid !in pidStderr {
        pidStderr := pidStderr[pid := StderrBuffer([], None)];
      }
      var buf := pidStderr[pid];
      if buf.exitAt.Some? {
        return;
      }
      var lines := PushLine(buf.lines, line);
      pidStderr := pidStderr[pid := StderrBuffer(lines, None)];
    }

    method MarkStderrExitAt(pid: Pid, now: Time)
      modifies this
      ensures pidStderr == Apply(old(pidStderr), Exited(pid, now))
    {
      if pid in pidStderr {
        pidStderr := pidStderr[pid := pidStderr[pid].(exitAt := Some(now))];
      }
    }

    method ClearStderr(pid: Pid)
      modifies this
      ensures pidStderr == Apply(old(pidStderr), Cleared(pid))
    {
      pidStderr := pidStderr - {pid};
    }

    method SweepExpiredStderrAt(now: Time)
      modifies this
      ensures pidStderr == Apply(old(pidStderr), Swept(now))
    {
      pidStderr := map p <- pidStderr | !Expired(pidStderr[p], now) :: pidStderr[p];
    }

    method StderrTailAt(pid: Pid, now: Time) returns (lines: seq<Bytes>)
      ensures lines == TailAt(pidStderr, pid, now)
    {
      if pid !in pidStderr || Expired(pidStderr[pid], now) {
        return [];
      }
      lines := pidStderr[pid].lines;
    }
  }

  function Apply(bufs: map<Pid, StderrBuffer>, e: StderrEvent): map<Pid, StderrBuffer> {
    match e
    case Line(p, line) =>
      var buf := if p in bufs then bufs[p] else StderrBuffer([], None);
      if buf.exitAt.Some? then bufs
      else bufs[p := buf.(lines := PushBounded(buf.lines, Utf8.Clip(line, MAX_LINE_BYTES), MAX_LINES))]
    case Exited(p, at) => if p in bufs then bufs[p := bufs[p].(exitAt := Some(at))] else bufs
    case Cleared(p) => bufs - {p}
    case Swept(at) => map p <- bufs | !Expired(bufs[p], at) :: bufs[p]
  }

  function After(events: seq<StderrEvent>): map<Pid, StderrBuffer> {
    if events == [] then map[] else Apply(After(events[..|events| - 1]), events[|events| - 1])
  }

  function TailAt(bufs: map<Pid, StderrBuffer>, pid: Pid, now: Time): seq<Bytes> {
    if pid !in bufs || Expired(bufs[pid], now) then [] else bufs[pid].lines
  }

  // ---------------------------------------------------------------- what a tail shows

  function LineFor(e: StderrEvent, pid: Pid): seq<Bytes> {
    if e.Line? && e.pid == pid then [e.line] else []
  }

  /** Everything `pid` wrote, in order and uncut. */
  function LinesOf(events: seq<StderrEvent>, pid: Pid): seq<Bytes> {
    if events == [] then []
    else
      var e := events[|events| - 1];
      LinesOf(events[..|events| - 1], pid) + LineFor(e, pid)
  }

  function Clipped(lines: seq<Bytes>): (r: seq<Bytes>)
    ensures |r| == |lines|
  {
    seq(|lines|, i requires 0 <= i < |lines| => Utf8.Clip(lines[i], 1024))
  }

  /** The last 64 lines, each clipped. */
  function Shown(lines: seq<Bytes>): seq<Bytes> {
    Suffix(Clipped(lines), 64)
  }

  /** Nothing that ends `pid`'s buffer: no exit and no clear. Sweeps spare a buffer still open. */
  predicate Open(events: seq<StderrEvent>, pid: Pid) {
    forall e <- events :: !(e.Exited? && e.pid == pid) && !(e.Cleared? && e.pid == pid)
  }

  /** Nothing that disturbs a buffer of `pid` that exited at `at`: no second exit, no clear, and no
      sweep after it expired. */
  predicate Undisturbed(events: seq<StderrEvent>, pid: Pid, at: Time) {
    && Open(events, pid)
    && forall e <- events :: e.Swept? ==> e.at < at + 30_000_000_000
  }

  lemma ShownStep(lines: seq<Bytes>, line: Bytes)
    ensures PushBounded(Shown(lines), Utf8.Clip(line, MAX_LINE_BYTES), MAX_LINES) == Shown(lines + [line])
  {
    assert Clipped(lines + [line]) == Clipped(lines) + [Utf8.Clip(line, MAX_LINE_BYTES)];
  }

  /** The buffer of `pid` while it is open: there is one as soon as there is a line. */
  predicate Collects(bufs: map<Pid, StderrBuffer>, pid: Pid, lines: seq<Bytes>) {
    if lines == [] then pid !in bufs else pid in bufs && bufs[pid] == StderrBuffer(Shown(lines), None)
  }

  lemma OpenStep(bufs: map<Pid, StderrBuffer>, e: StderrEvent, pid: Pid, lines: seq<Bytes>)
    requires Collects(bufs, pid, lines) && Open([e], pid)
    ensures Collects(Apply(bufs, e), pid, lines + LineFor(e, pid))
  {
    assert e in [e];
    if e.Line? && e.pid == pid {
      ShownStep(lines, e.line);
      hide Utf8.Clip, Shown, PushBounded;
      assert lines == [] ==> Shown(lines) == [] by {
        ShownNone();
      }
    } else {
      assert lines + [] == lines;
    }
  }

  lemma ShownNone()
    ensures Shown([]) == []
  {
  }

  /** From any point where `pid` has no buffer. */
  lemma {:induction false} Reopened(before: seq<StderrEvent>, pid: Pid, after: seq<StderrEvent>)
    requires pid !in After(before) && Open(after, pid)
    ensures Collects(After(before + after), pid, LinesOf(after, pid))
  {
    if after == [] {
      assert before + after == before;
    } else {
      var n := |after| - 1;
      Reopened(before, pid, after[..n]);
      assert (before + after)[..|before + after| - 1] == before + after[..n];
      assert Open([after[n]], pid);
      hide Collects, Apply, Open;
      OpenStep(After(before + after[..n]), after[n], pid, LinesOf(after[..n], pid));
    }
  }

  lemma OpenBuffer(events: seq<StderrEvent>, pid: Pid)
    requires Open(events, pid)
    ensures Collects(After(events), pid, LinesOf(events, pid))
  {
    Reopened([], pid, events);
    assert [] + events == events;
  }

  lemma ExitedStep(bufs: map<Pid, StderrBuffer>, e: StderrEvent, pid: Pid, at: Time)
    requires pid in bufs && bufs[pid].exitAt == Some(at) && Undisturbed([e], pid, at)
    ensures pid in Apply(bufs, e) && Apply(bufs, e)[pid] == bufs[pid]
  {
    hide Utf8.Clip, PushBounded;
    assert e in [e];
  }

  lemma {:induction false} ExitedBuffer(before: seq<StderrEvent>, pid: Pid, at: Time, after: seq<StderrEvent>)
    requires Undisturbed(after, pid, at)
    requires pid in After(before)
    ensures pid in After(before + [Exited(pid, at)] + after)
    ensures After(before + [Exited(pid, at)] + after)[pid] == After(before)[pid].(exitAt := Some(at))
  {
    var events := before + [Exited(pid, at)] + after;
    if after == [] {
      assert events[..|events| - 1] == before;
    } else {
      var n := |after| - 1;
      ExitedBuffer(before, pid, at, after[..n]);
      assert events[..|events| - 1] == before + [Exited(pid, at)] + after[..n];
      assert Undisturbed([after[n]], pid, at);
      hide Apply, Undisturbed;
      ExitedStep(After(events[..|events| - 1]), after[n], pid, at);
    }
  }

  /** While the process lives, the tail is its last 64 lines, clipped. */
  lemma LiveTail(events: seq<StderrEvent>, pid: Pid, now: Time)
    requires Open(events, pid)
    ensures TailAt(After(events), pid, now) == Shown(LinesOf(events, pid))
  {
    OpenBuffer(events, pid);
  }

  /** After its exit the tail stays what it was at the exit, whatever is still written under that PID,
      until thirty seconds are over; then it reads as empty. */
  lemma FrozenTail(before: seq<StderrEvent>, pid: Pid, at: Time, after: seq<StderrEvent>, now: Time)
    requires Open(before, pid) && LinesOf(before, pid) != []
    requires Undisturbed(after, pid, at)
    ensures TailAt(After(before + [Exited(pid, at)] + after), pid, now)
            == if now < at + 30_000_000_000 then Shown(LinesOf(before, pid)) else []
  {
    OpenBuffer(before, pid);
    ExitedBuffer(before, pid, at, after);
  }

  /** A process that had written nothing leaves no buffer to freeze: its exit is forgotten, and lines
      written under that PID afterwards are collected. */
  lemma SilentExitIsForgotten(before: seq<StderrEvent>, pid: Pid, at: Time, after: seq<StderrEvent>, now: Time)
    requires Open(before, pid) && LinesOf(before, pid) == []
    requires Open(after, pid)
    ensures TailAt(After(before + [Exited(pid, at)] + after), pid, now) == Shown(LinesOf(after, pid))
  {
    var quiet := before + [Exited(pid, at)];
    OpenBuffer(before, pid);
    assert quiet[..|quiet| - 1] == before;
    Reopened(quiet, pid, after);
  }

  /** A clear, or the sweep that follows the expiry, makes room for the next owner of the PID. */
  lemma ClearStartsAfresh(before: seq<StderrEvent>, pid: Pid, after: seq<StderrEvent>, now: Time)
    requires Open(after, pid)
    ensures TailAt(After(before + [Cleared(pid)] + after), pid, now) == Shown(LinesOf(after, pid))
  {
    var cleared := before + [Cleared(pid)];
    assert cleared[..|cleared| - 1] == before;
    Reopened(cleared, pid, after);
  }

  /** Memory and text bounds, for any run of valid lines: at most 64 lines for each PID, each valid
      UTF-8 of at most 1024 bytes. */
  lemma {:induction false} TailsAreBounded(events: seq<StderrEvent>, pid: Pid)
    requires forall e <- events :: e.Line? ==> Utf8.Valid(e.line)
    requires pid in After(events)
    ensures |After(events)[pid].lines| <= 64
    ensures forall l <- After(events)[pid].lines :: Utf8.Valid(l) && |l| <= 1024
  {
    hide Utf8.Clip, Utf8.Valid;
    var n := |events| - 1;
    var bufs := After(events[..n]);
    if pid in bufs {
      TailsAreBounded(events[..n], pid);
    }
    if events[n].Line? && events[n].pid == pid {
      Utf8.ClipIsValidAndTight(events[n].line, MAX_LINE_BYTES);
      var lines := if pid in bufs then bufs[pid].lines else [];
      forall l <- PushBounded(lines, Utf8.Clip(events[n].line, MAX_LINE_BYTES), MAX_LINES)
        ensures l in lines || l == Utf8.Clip(events[n].line, MAX_LINE_BYTES)
      {
      }
    }
  }

  lemma SweptOut(before: seq<StderrEvent>, pid: Pid, at: Time, sweep: Time)
    requires pid in After(before) ==> After(before)[pid].exitAt == Some(at)
    requires sweep >= at + 30_000_000_000
    ensures pid !in After(before + [Swept(sweep)])
  {
    assert (before + [Swept(sweep)])[..|before|] == before;
  }

  /** The sweep that follows the expiry makes room for the next owner of the PID: a buffer that exited is gone, and lines
      written after the sweep are collected from an empty one. */
  lemma SweepStartsAfresh(before: seq<StderrEvent>, pid: Pid, at: Time, quiet: seq<StderrEvent>, sweep: Time,
                          after: seq<StderrEvent>, now: Time)
    requires Open(before, pid) && LinesOf(before, pid) != [] && Undisturbed(quiet, pid, at)
    requires sweep >= at + 30_000_000_000 && Open(after, pid)
    ensures TailAt(After(before + [Exited(pid, at)] + quiet + [Swept(sweep)] + after), pid, now) == Shown(LinesOf(after, pid))
  {
    var exited := before + [Exited(pid, at)] + quiet;
    OpenBuffer(before, pid);
    ExitedBuffer(before, pid, at, quiet);
    SweptOut(exited, pid, at, sweep);
    Reopened(exited + [Swept(sweep)], pid, after);
  }

  /** A sweep touches nothing else: an open buffer and one that has not expired stay as they are. */
  lemma SweepSparesOthers(events: seq<StderrEvent>, pid: Pid, sweep: Time)
    requires pid in After(events)
    requires After(events)[pid].exitAt.None? || sweep < After(events)[pid].exitAt.value + 30_000_000_000
    ensures pid in After(events + [Swept(sweep)]) && After(events + [Swept(sweep)])[pid] == After(events)[pid]
  {
    assert (events + [Swept(sweep)])[..|events|] == events;
  }
}
