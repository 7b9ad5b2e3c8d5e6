/** What the lines of the two logs say, told from their bytes: the phrases that the classifier looks for, whatever the case of their
    letters (src/exit_classify.rs). */
module Phrases {
  import opened Options
  import opened Text
  import opened ExitClassify
  import Utf8

  /** `c` stands at this byte, in either case when it is a lower-case letter. */
  predicate SameLetter(b: Byte, c: char) {
    b == c as int || ('a' <= c <= 'z' && b == c as int - 32)
  }

  predicate SaysAt(line: Bytes, phrase: string, i: nat) {
    i + |phrase| <= |line| && forall k :: 0 <= k < |phrase| ==> SameLetter(line[i + k], phrase[k])
  }

  /** The phrase is somewhere in the line, whatever the case of its letters. */
  ghost predicate Says(line: Bytes, phrase: string) {
    exists i: nat :: i <= |line| && SaysAt(line, phrase, i)
  }

  ghost predicate SaysOom(line: Bytes) {
    Says(line, "out of memory") || Says(line, "oom-kill") || Says(line, "oom_reaper")
  }

  ghost predicate SaysCudaOom(line: Bytes) {
    || Says(line, "cuda out of memory") || Says(line, "cuda_error_out_of_memory")
    || (Says(line, "cudamalloc") && Says(line, "out of memory"))
  }

  ghost predicate SaysCudaError(line: Bytes) {
    Says(line, "cuda error") || Says(line, "cudaerror") || Says(line, "cuda_error_")
  }

  /** ASCII without capital letters. */
  predicate Lower(phrase: string) {
    forall k :: 0 <= k < |phrase| ==> phrase[k] as int < 128 && !('A' <= phrase[k] <= 'Z')
  }

  lemma FoldedAt(line: Bytes, phrase: string, i: nat)
    requires Lower(phrase)
    ensures OccursAt(AsciiLower(line), Ascii(phrase), i) <==> SaysAt(line, phrase, i)
  {
    var lower := AsciiLower(line);
    if OccursAt(lower, Ascii(phrase), i) {
      OccurrenceBytes(lower, Ascii(phrase), i);
      forall k | 0 <= k < |phrase|
        ensures SameLetter(line[i + k], phrase[k])
      {
        assert lower[i + k] == Ascii(phrase)[k];
      }
    }
    if SaysAt(line, phrase, i) {
      assert lower[i..i + |phrase|] == Ascii(phrase) by {
        forall k | 0 <= k < |phrase|
          ensures lower[i..i + |phrase|][k] == Ascii(phrase)[k]
        {
          assert SameLetter(line[i + k], phrase[k]);
        }
      }
    }
  }

  lemma SaysIffContains(line: Bytes, phrase: string)
    requires Lower(phrase)
    ensures Says(line, phrase) <==> Contains(AsciiLower(line), Ascii(phrase))
  {
    forall i: nat
      ensures OccursAt(AsciiLower(line), Ascii(phrase), i) <==> SaysAt(line, phrase, i)
    {
      FoldedAt(line, phrase, i);
    }
    hide SaysAt, OccursAt, Ascii;
  }

  lemma OomPhrases(line: Bytes)
    ensures SaysOom(line) <==> MentionsOom(line)
  {
    hide Says, Contains, Ascii, AsciiLower;
    SaysIffContains(line, "out of memory");
    SaysIffContains(line, "oom-kill");
    SaysIffContains(line, "oom_reaper");
  }

  lemma CudaPhrases(line: Bytes)
    ensures SaysCudaOom(line) <==> IsCudaOom(line)
    ensures SaysCudaError(line) <==> IsCudaError(line)
  {
    hide Says, Contains, Ascii, AsciiLower;
    SaysIffContains(line, "out of memory");
    SaysIffContains(line, "cuda out of memory");
    SaysIffContains(line, "cuda_error_out_of_memory");
    SaysIffContains(line, "cudamalloc");
    SaysIffContains(line, "cuda error");
    SaysIffContains(line, "cudaerror");
    SaysIffContains(line, "cuda_error_");
  }

  // ---------------------------------------------------------------- whom the kernel log blames

  /** Some out-of-memory line names a number that starts with the digits of `pid`. */
  ghost predicate BlamedFor(lines: seq<Bytes>, pid: nat) {
    exists line <- lines, run :: SaysOom(line) && NamesRun(line, run) && Decimal(pid) <= run
  }

  lemma BlamedIff(lines: seq<Bytes>, pid: nat)
    ensures BlamedFor(lines, pid) <==> KernelLogNames(lines, pid)
  {
    hide SaysOom, MentionsOom, NamesRun, LineNames, Decimal;
    forall line <- lines
      ensures LineNames(line, pid) <==> SaysOom(line) && exists run :: NamesRun(line, run) && Decimal(pid) <= run
    {
      OomPhrases(line);
      LineNamesIffPrefix(line, pid);
    }
  }

  // ---------------------------------------------------------------- the message of a CUDA error

  /** The message kept of a line: all of it, or all characters that fit into 512 bytes and an ellipsis. */
  ghost predicate KeptOf(msg: Bytes, line: Bytes) {
    if |line| <= 512 then msg == line
    else
      exists n: nat :: n <= 512 && Utf8.IsCharBoundary(line, n) && msg == line[..n] + [0xE2, 0x80, 0xA6]
                       && forall m :: n < m <= 512 ==> !Utf8.IsCharBoundary(line, m)
  }

  lemma TruncatedIsKept(line: Bytes)
    ensures forall msg :: KeptOf(msg, line) <==> msg == Truncated(line, MAX_LAST_MSG_LEN)
  {
    if |line| > 512 {
      var end := Utf8.ClipEnd(line, 512);
      forall msg | KeptOf(msg, line)
        ensures msg == Truncated(line, MAX_LAST_MSG_LEN)
      {
        var n: nat :| n <= 512 && Utf8.IsCharBoundary(line, n) && msg == line[..n] + [0xE2, 0x80, 0xA6]
                      && forall m :: n < m <= 512 ==> !Utf8.IsCharBoundary(line, m);
        assert n == end;
      }
    }
  }

  /** The first line that says so gives the message. */
  ghost predicate CudaMessage(lines: seq<Bytes>, msg: Bytes) {
    exists i :: 0 <= i < |lines| && SaysCudaError(lines[i]) && KeptOf(msg, lines[i])
                && forall j :: 0 <= j < i ==> !SaysCudaError(lines[j])
  }

  lemma {:induction false} FirstMessage(lines: seq<Bytes>)
    ensures FirstCudaError(lines).None? <==> forall line <- lines :: !SaysCudaError(line)
    ensures FirstCudaError(lines).Some? ==>
              exists i :: 0 <= i < |lines| && lines[i] == FirstCudaError(lines).value && SaysCudaError(lines[i])
                          && forall j :: 0 <= j < i ==> !SaysCudaError(lines[j])
  {
    hide SaysCudaError, SaysCudaOom, IsCudaError, IsCudaOom;
    if lines != [] {
      CudaPhrases(lines[0]);
      assert lines == [lines[0]] + lines[1..];
      FirstMessage(lines[1..]);
      if !IsCudaError(lines[0]) && FirstCudaError(lines[1..]).Some? {
        var i :| 0 <= i < |lines[1..]| && lines[1..][i] == FirstCudaError(lines[1..]).value && SaysCudaError(lines[1..][i])
                 && forall j :: 0 <= j < i ==> !SaysCudaError(lines[1..][j]);
        assert lines[i + 1] == lines[1..][i];
        assert forall j :: 1 <= j < i + 1 ==> lines[j] == lines[1..][j - 1];
      }
    }
  }

  lemma MessageIs(lines: seq<Bytes>)
    ensures (exists msg :: CudaMessage(lines, msg)) <==> FirstCudaError(lines).Some?
    ensures FirstCudaError(lines).Some? ==>
              forall msg :: CudaMessage(lines, msg) <==> msg == Truncated(FirstCudaError(lines).value, MAX_LAST_MSG_LEN)
    ensures FirstCudaError(lines).None? <==> forall line <- lines :: !SaysCudaError(line)
  {
    FirstMessage(lines);
    hide SaysCudaError, FirstCudaError, KeptOf, Truncated;
    if FirstCudaError(lines).Some? {
      var i :| 0 <= i < |lines| && lines[i] == FirstCudaError(lines).value && SaysCudaError(lines[i])
               && forall j :: 0 <= j < i ==> !SaysCudaError(lines[j]);
      TruncatedIsKept(lines[i]);
      forall msg
        ensures CudaMessage(lines, msg) <==> msg == Truncated(lines[i], MAX_LAST_MSG_LEN)
      {
        if CudaMessage(lines, msg) {
          var k :| 0 <= k < |lines| && SaysCudaError(lines[k]) && KeptOf(msg, lines[k])
                   && forall j :: 0 <= j < k ==> !SaysCudaError(lines[j]);
          assert k == i;
        }
      }
      assert CudaMessage(lines, Truncated(lines[i], MAX_LAST_MSG_LEN));
    } else {
      forall msg
        ensures !CudaMessage(lines, msg)
      {
        assert forall i :: 0 <= i < |lines| ==> lines[i] in lines;
      }
    }
  }
}
