/** The append-only audit file and its replay (src/governor/audit.rs), byte by byte. The serialiser
    and the parser are parameters; `Lawful` is what is asked of them. */
module AuditFile {
  import opened Options
  import opened Text
  import Utf8
  import Protocol

  const NEWLINE: Byte := 0x0A
  const RETURN: Byte := 0x0D

  /** One record per line, no line break inside, readable back, and nothing readable before its end. */
  ghost predicate Lawful<E(!new)>(serialise: E -> Bytes, parse: Bytes -> Option<E>) {
    forall e: E ::
      var line := serialise(e);
      && Utf8.Valid(line) && NEWLINE !in line && RETURN !in line && !Blank(line)
      && parse(line) == Some(e)
      && forall n: nat :: n < |line| ==> parse(line[..n]) == None
  }

  /** A record glued behind the whole or the beginning of another one reads as neither. */
  ghost predicate GlueUnreadable<E(!new)>(serialise: E -> Bytes, parse: Bytes -> Option<E>) {
    forall d: E, e: E, n: nat :: 0 < n <= |serialise(d)| ==> parse(serialise(d)[..n] + serialise(e)) == None
  }

  /** A line of white space only. (Unicode spaces outside ASCII fall through to the parser, which
      rejects them: the same result but for a warning.) */
  predicate Blank(line: Bytes) {
    forall b <- line :: b == 0x20 || 0x09 <= b <= 0x0D
  }

  class AuditWriter<E(!new)> {
    const serialise: E -> Bytes
    /** What the file holds. */
    var file: Bytes

    /** Opens in append mode: what is there stays. */
    constructor (serialise: E -> Bytes, existing: Bytes)
      ensures file == existing && this.serialise == serialise
    {
      this.serialise, file := serialise, existing;
    }

    method AppendSerializable(entry: E)
      modifies this
      ensures file == old(file) + Written([entry], serialise)
    {
      var line := serialise(entry);
      file := file + line;
      file := file + [NEWLINE];
      assert Written([], serialise) == [];
      assert [entry][..0] == [];
      assert old(file) + line + [NEWLINE] == old(file) + ([] + line + [NEWLINE]);
    }
  }

  /** The bytes that appending `entries` one by one adds to the file. */
  function Written<E>(entries: seq<E>, serialise: E -> Bytes): Bytes {
    if entries == [] then []
    else Written(entries[..|entries| - 1], serialise) + serialise(entries[|entries| - 1]) + [NEWLINE]
  }

  function FirstBreak(t: Bytes): (i: nat)
    ensures i <= |t| && NEWLINE !in t[..i] && (i < |t| ==> t[i] == NEWLINE)
  {
    if t == [] || t[0] == NEWLINE then 0
    else
      assert t[..1 + FirstBreak(t[1..])] == [t[0]] + t[1..][..FirstBreak(t[1..])];
      1 + FirstBreak(t[1..])
  }

  /** The line before a break, without the carriage return a break may bring along. */
  function StripReturn(line: Bytes): Bytes {
    if line != [] && line[|line| - 1] == RETURN then line[..|line| - 1] else line
  }

  /** What one line adds to the result; `None` stops the replay. */
  function ReplayLine<E>(line: Bytes, parse: Bytes -> Option<E>): Option<seq<E>> {
    if !Utf8.Valid(line) then None
    else if Blank(line) || parse(line).None? then Some([])
    else Some([parse(line).value])
  }

  function Both<E>(a: Option<seq<E>>, b: Option<seq<E>>): Option<seq<E>> {
    if a.None? || b.None? then None else Some(a.value + b.value)
  }

  /** The entries of all lines; a line that is not UTF-8 makes the whole replay fail. */
  function Replayed<E>(t: Bytes, parse: Bytes -> Option<E>): Option<seq<E>>
    decreases |t|
  {
    if t == [] then Some([])
    else
      var i := FirstBreak(t);
      if i == |t| then ReplayLine(t, parse)
      else Both(ReplayLine(StripReturn(t[..i]), parse), Replayed(t[i + 1..], parse))
  }

  lemma BothUnit<E>(r: Option<seq<E>>)
    ensures Both(Some([]), r) == r && Both(r, Some([])) == r
  {
    if r.Some? {
      assert [] + r.value == r.value && r.value + [] == r.value;
    }
  }

  lemma BothAssociates<E>(a: Option<seq<E>>, b: Option<seq<E>>, c: Option<seq<E>>)
    ensures Both(Both(a, b), c) == Both(a, Both(b, c))
  {
    if a.Some? && b.Some? && c.Some? {
      assert a.value + b.value + c.value == a.value + (b.value + c.value);
    }
  }

  method Replay<E>(t: Bytes, parse: Bytes -> Option<E>) returns (r: Option<seq<E>>)
    ensures r == Replayed(t, parse)
  {
    hide ReplayLine, StripReturn, FirstBreak;
    var entries: seq<E> := [];
    var pos := 0;
    assert t[0..] == t;
    BothUnit(Replayed(t, parse));
    while pos < |t|
      invariant 0 <= pos <= |t|
      invariant Replayed(t, parse) == Both(Some(entries), Replayed(t[pos..], parse))
      decreases |t| - pos
    {
      var rest := t[pos..];
      var i := FirstBreak(rest);
      var line := if i < |rest| then StripReturn(rest[..i]) else rest;
      var added := ReplayLine(line, parse);
      ghost var left := if i < |rest| then Replayed(rest[i + 1..], parse) else Some([]);
      BothUnit(added);
      assert Replayed(rest, parse) == Both(added, left);
      BothAssociates(Some(entries), added, left);
      if added.None? {
        return None;
      }
      entries := entries + added.value;
      pos := if i < |rest| then pos + i + 1 else |t|;
      if i < |rest| {
        assert rest[i + 1..] == t[pos..];
      } else {
        assert t[pos..] == [];
      }
    }
    assert t[pos..] == [];
    r := Some(entries);
    BothUnit(r);
  }

  // ---------------------------------------------------------------- whole file

  lemma {:induction false} BreakAfter(line: Bytes, t: Bytes)
    requires NEWLINE !in line
    ensures FirstBreak(line + t) == |line| + FirstBreak(t)
  {
    if line == [] {
      assert line + t == t;
    } else {
      assert (line + t)[1..] == line[1..] + t;
      BreakAfter(line[1..], t);
    }
  }

  lemma LineFirst<E>(line: Bytes, t: Bytes, parse: Bytes -> Option<E>)
    requires NEWLINE !in line && RETURN !in line
    ensures Replayed(line + [NEWLINE] + t, parse) == Both(ReplayLine(line, parse), Replayed(t, parse))
  {
    var all := line + [NEWLINE] + t;
    assert all == line + ([NEWLINE] + t);
    BreakAfter(line, [NEWLINE] + t);
    assert all[..|line|] == line && all[|line| + 1..] == t;
    assert StripReturn(line) == line;
  }

  /** A complete record in front of anything. */
  lemma RecordFirst<E(!new)>(e: E, t: Bytes, serialise: E -> Bytes, parse: Bytes -> Option<E>)
    requires Lawful(serialise, parse)
    ensures Replayed(serialise(e) + [NEWLINE] + t, parse) == Both(Some([e]), Replayed(t, parse))
  {
    LineFirst(serialise(e), t, parse);
  }

  lemma {:induction false} RecordsFirst<E(!new)>(entries: seq<E>, t: Bytes, serialise: E -> Bytes, parse: Bytes -> Option<E>)
    requires Lawful(serialise, parse)
    ensures Replayed(Written(entries, serialise) + t, parse) == Both(Some(entries), Replayed(t, parse))
  {
    hide Lawful, Replayed;
    if entries == [] {
      assert Written(entries, serialise) + t == t;
      BothUnit(Replayed(t, parse));
    } else {
      var front, last := entries[..|entries| - 1], entries[|entries| - 1];
      var rest := serialise(last) + [NEWLINE] + t;
      assert Written(entries, serialise) + t == Written(front, serialise) + rest;
      RecordsFirst(front, rest, serialise, parse);
      RecordFirst(last, t, serialise, parse);
      assert entries == front + [last];
      BothAssociates(Some(front), Some([last]), Replayed(t, parse));
    }
  }

  /** An undamaged file replays to everything that was appended, in order. */
  lemma WholeFileReplays<E(!new)>(entries: seq<E>, serialise: E -> Bytes, parse: Bytes -> Option<E>)
    requires Lawful(serialise, parse)
    ensures Replayed(Written(entries, serialise), parse) == Some(entries)
  {
    RecordsFirst(entries, [], serialise, parse);
    assert Written(entries, serialise) + [] == Written(entries, serialise);
    BothUnit(Some(entries));
  }

  // ---------------------------------------------------------------- files of any lines

  /** Lines with their breaks, all of one byte or all of two. */
  function Joined(lines: seq<Bytes>, crlf: bool): Bytes {
    if lines == [] then []
    else lines[0] + (if crlf then [RETURN, NEWLINE] else [NEWLINE]) + Joined(lines[1..], crlf)
  }

  /** What the lines hold: nothing on a line of white space, nothing on one that does not parse. */
  function Readable<E>(lines: seq<Bytes>, parse: Bytes -> Option<E>): seq<E> {
    if lines == [] then []
    else
      var line, rest := lines[0], Readable(lines[1..], parse);
      if (forall b <- line :: b in {0x20, 0x09, 0x0A, 0x0B, 0x0C, 0x0D}) || parse(line).None? then rest
      else [parse(line).value] + rest
  }

  lemma BrokenLineFirst<E>(line: Bytes, t: Bytes, parse: Bytes -> Option<E>)
    requires NEWLINE !in line
    ensures Replayed(line + [NEWLINE] + t, parse) == Both(ReplayLine(StripReturn(line), parse), Replayed(t, parse))
  {
    var all := line + [NEWLINE] + t;
    assert all == line + ([NEWLINE] + t);
    BreakAfter(line, [NEWLINE] + t);
    assert all[..|line|] == line && all[|line| + 1..] == t;
  }

  lemma ReturnedLineFirst<E>(line: Bytes, crlf: bool, t: Bytes, parse: Bytes -> Option<E>)
    requires NEWLINE !in line && (crlf || line == [] || line[|line| - 1] != RETURN)
    ensures Replayed(line + (if crlf then [RETURN, NEWLINE] else [NEWLINE]) + t, parse)
            == Both(ReplayLine(line, parse), Replayed(t, parse))
  {
    if crlf {
      BrokenLineFirst(line + [RETURN], t, parse);
      assert StripReturn(line + [RETURN]) == line;
      hide Replayed;
      assert line + [RETURN] + [NEWLINE] + t == line + [RETURN, NEWLINE] + t;
    } else {
      BrokenLineFirst(line, t, parse);
    }
  }

  lemma BlankMeans(line: Bytes)
    ensures Blank(line) <==> forall b <- line :: b in {0x20, 0x09, 0x0A, 0x0B, 0x0C, 0x0D}
  {
  }

  /** What replaying means for a file of complete lines, whoever wrote it: it fails if and only if some line is not UTF-8; otherwise
      it gives, in order, what the lines hold that are not blank and parse. Two-byte line breaks read as one. */
  lemma {:induction false} LinesReplay<E>(lines: seq<Bytes>, crlf: bool, parse: Bytes -> Option<E>)
    requires forall line <- lines :: NEWLINE !in line && (crlf || line == [] || line[|line| - 1] != RETURN)
    ensures Replayed(Joined(lines, crlf), parse)
            == if exists line <- lines :: !Utf8.Valid(line) then None else Some(Readable(lines, parse))
  {
    hide Replayed, Utf8.Valid, Blank;
    if lines == [] {
      assert Replayed([], parse) == Some([]) by {
        NothingReplays(parse);
      }
    } else {
      var line, rest := lines[0], lines[1..];
      assert lines == [line] + rest;
      LinesReplay(rest, crlf, parse);
      BlankMeans(line);
      ReturnedLineFirst(line, crlf, Joined(rest, crlf), parse);
      BothUnit(Some(Readable(rest, parse)));
      hide Joined;
      if !Utf8.Valid(line) || exists l <- rest :: !Utf8.Valid(l) {
        assert exists l <- lines :: !Utf8.Valid(l);
      } else {
        assert forall l <- lines :: Utf8.Valid(l);
      }
    }
  }

  lemma NothingReplays<E>(parse: Bytes -> Option<E>)
    ensures Replayed([], parse) == Some([])
  {
  }

  // ---------------------------------------------------------------- torn files

  /** A file cut at any byte is some complete records and a possibly empty piece of the next one. */
  datatype Tear = Tear(complete: nat, piece: nat)

  ghost predicate TearsAt<E>(entries: seq<E>, serialise: E -> Bytes, cut: nat, tear: Tear) {
    && tear.complete <= |entries|
    && cut == |Written(entries[..tear.complete], serialise)| + tear.piece
    && if tear.complete == |entries| then tear.piece == 0
       else tear.piece <= |serialise(entries[tear.complete])|
  }

  function Piece<E>(entries: seq<E>, serialise: E -> Bytes, tear: Tear): Bytes
    requires tear.complete < |entries| && tear.piece <= |serialise(entries[tear.complete])|
  {
    serialise(entries[tear.complete])[..tear.piece]
  }

  lemma {:induction false} EveryCutTears<E>(entries: seq<E>, serialise: E -> Bytes, cut: nat)
    requires cut <= |Written(entries, serialise)|
    ensures exists tear :: TearsAt(entries, serialise, cut, tear)
  {
    if cut == |Written(entries, serialise)| {
      assert entries[..|entries|] == entries;
      assert TearsAt(entries, serialise, cut, Tear(|entries|, 0));
    } else {
      var front := entries[..|entries| - 1];
      if cut < |Written(front, serialise)| {
        EveryCutTears(front, serialise, cut);
        var tear :| TearsAt(front, serialise, cut, tear);
        assert front[..|front|] == front;
        assert tear.complete < |front|;
        assert front[..tear.complete] == entries[..tear.complete];
        assert TearsAt(entries, serialise, cut, tear);
      } else {
        assert TearsAt(entries, serialise, cut, Tear(|front|, cut - |Written(front, serialise)|));
      }
    }
  }

  lemma {:induction false} WrittenSplit<E>(a: seq<E>, b: seq<E>, serialise: E -> Bytes)
    ensures Written(a + b, serialise) == Written(a, serialise) + Written(b, serialise)
    decreases |b|
  {
    if b == [] {
      assert a + b == a;
    } else {
      assert (a + b)[..|a + b| - 1] == a + b[..|b| - 1];
      WrittenSplit(a, b[..|b| - 1], serialise);
    }
  }

  lemma WrittenOne<E>(e: E, serialise: E -> Bytes)
    ensures Written([e], serialise) == serialise(e) + [NEWLINE]
  {
    assert [e][..0] == [];
    assert Written([], serialise) == [];
    assert [] + serialise(e) == serialise(e);
  }

  /** The bytes left after the cut, in terms of the tear. */
  lemma TornBytes<E>(entries: seq<E>, serialise: E -> Bytes, cut: nat, tear: Tear)
    requires TearsAt(entries, serialise, cut, tear)
    ensures cut <= |Written(entries, serialise)|
    ensures Written(entries, serialise)[..cut]
            == Written(entries[..tear.complete], serialise)
             + if tear.complete == |entries| then [] else Piece(entries, serialise, tear)
  {
    var k := tear.complete;
    if k == |entries| {
      assert entries[..k] == entries;
    } else {
      var line := serialise(entries[k]);
      assert entries == entries[..k] + ([entries[k]] + entries[k + 1..]);
      WrittenSplit(entries[..k], [entries[k]] + entries[k + 1..], serialise);
      WrittenSplit([entries[k]], entries[k + 1..], serialise);
      WrittenOne(entries[k], serialise);
    }
  }

  lemma {:induction false} WrittenValid<E(!new)>(entries: seq<E>, serialise: E -> Bytes, parse: Bytes -> Option<E>)
    requires Lawful(serialise, parse)
    ensures Utf8.Valid(Written(entries, serialise))
  {
    if entries != [] {
      var front, last := entries[..|entries| - 1], entries[|entries| - 1];
      WrittenValid(front, serialise, parse);
      Utf8.ValidConcat(Written(front, serialise), serialise(last));
      Utf8.ValidConcat(Written(front, serialise) + serialise(last), [NEWLINE]);
    }
  }

  /** Where the second part starts a character, the whole is valid exactly when both parts are. */
  lemma JoinValid(a: Bytes, b: Bytes)
    requires b == [] || !Utf8.IsTail(b[0])
    ensures Utf8.Valid(a + b) <==> Utf8.Valid(a) && Utf8.Valid(b)
  {
    if Utf8.Valid(a + b) {
      Utf8.BoundarySplits(a + b, |a|);
      assert (a + b)[..|a|] == a && (a + b)[|a|..] == b;
    }
    if Utf8.Valid(a) && Utf8.Valid(b) {
      Utf8.ValidConcat(a, b);
    }
  }

  lemma StartsACharacter(t: Bytes)
    requires Utf8.Valid(t)
    ensures t == [] || !Utf8.IsTail(t[0])
  {
  }

  /** A cut splits no character exactly when what it leaves of the torn record is valid. */
  lemma PieceValid<E(!new)>(entries: seq<E>, serialise: E -> Bytes, parse: Bytes -> Option<E>, cut: nat, tear: Tear)
    requires Lawful(serialise, parse) && TearsAt(entries, serialise, cut, tear) && tear.complete < |entries|
    ensures Utf8.IsCharBoundary(Written(entries, serialise), cut) <==> Utf8.Valid(Piece(entries, serialise, tear))
  {
    var file := Written(entries, serialise);
    var front, piece := Written(entries[..tear.complete], serialise), Piece(entries, serialise, tear);
    TornBytes(entries, serialise, cut, tear);
    WrittenValid(entries, serialise, parse);
    WrittenValid(entries[..tear.complete], serialise, parse);
    StartsACharacter(serialise(entries[tear.complete]));
    JoinValid(front, piece);
    if Utf8.IsCharBoundary(file, cut) {
      Utf8.BoundarySplits(file, cut);
    }
    if Utf8.Valid(file[..cut]) {
      Utf8.ValidPrefixEndsAtBoundary(file, cut);
    }
  }

  /** A last line without a break, being the beginning of a record. */
  lemma ReplayPiece<E(!new)>(e: E, n: nat, serialise: E -> Bytes, parse: Bytes -> Option<E>)
    requires Lawful(serialise, parse) && n <= |serialise(e)|
    ensures var piece := serialise(e)[..n];
            Replayed(piece, parse)
            == if !Utf8.Valid(piece) then None else Some(if n == |serialise(e)| then [e] else [])
  {
    var piece := serialise(e)[..n];
    assert NEWLINE !in piece;
    assert FirstBreak(piece) == |piece|;
    if n == |serialise(e)| {
      assert piece == serialise(e);
    }
  }

  lemma WrittenOfFront<E>(entries: seq<E>, serialise: E -> Bytes, i: nat)
    requires i < |entries|
    ensures Written(entries[..|entries| - 1][..i], serialise) == Written(entries[..i], serialise)
  {
    hide Written;
    assert entries[..|entries| - 1][..i] == entries[..i];
  }

  /** How many entries have all their text, if not their line break, in the first `cut` bytes. */
  function FullyWritten<E>(entries: seq<E>, serialise: E -> Bytes, cut: nat): (k: nat)
    ensures k <= |entries|
    ensures k > 0 ==> |Written(entries[..k], serialise)| <= cut + 1
    ensures k < |entries| ==> |Written(entries[..k + 1], serialise)| > cut + 1
  {
    if entries == [] then 0
    else if |Written(entries, serialise)| <= cut + 1 then
      assert entries[..|entries|] == entries;
      |entries|
    else
      var front := entries[..|entries| - 1];
      var k := FullyWritten(front, serialise, cut);
      WrittenOfFront(entries, serialise, k);
      WrittenOfFront(entries, serialise, if k < |front| then k + 1 else k);
      assert entries[..|entries|] == entries;
      k
  }

  lemma {:induction false} WrittenGrows<E>(entries: seq<E>, serialise: E -> Bytes, i: nat, j: nat)
    requires i < j <= |entries|
    ensures |Written(entries[..i], serialise)| < |Written(entries[..j], serialise)|
  {
    assert entries[..j][..j - 1] == entries[..j - 1];
    if i < j - 1 {
      WrittenGrows(entries, serialise, i, j - 1);
    }
  }

  lemma FullyWrittenIs<E>(entries: seq<E>, serialise: E -> Bytes, cut: nat, tear: Tear)
    requires TearsAt(entries, serialise, cut, tear)
    ensures FullyWritten(entries, serialise, cut)
            == tear.complete
             + if tear.complete < |entries| && tear.piece == |serialise(entries[tear.complete])| then 1 else 0
  {
    var n, k := tear.complete, FullyWritten(entries, serialise, cut);
    if n < |entries| {
      assert entries[..n + 1][..n] == entries[..n];
      assert |Written(entries[..n + 1], serialise)| == |Written(entries[..n], serialise)| + |serialise(entries[n])| + 1;
    }
    if k < n {
      if k + 1 < n {
        WrittenGrows(entries, serialise, k + 1, n);
      }
      assert false;
    }
    if n + 1 < k {
      WrittenGrows(entries, serialise, n + 1, k);
      assert false;
    }
  }

  /** However the file is torn: replay fails if and only if the cut splits a character, and otherwise
      returns exactly the entries that were fully written, in order. */
  lemma TornFileReplays<E(!new)>(entries: seq<E>, serialise: E -> Bytes, parse: Bytes -> Option<E>, cut: nat)
    requires Lawful(serialise, parse) && cut <= |Written(entries, serialise)|
    ensures Replayed(Written(entries, serialise)[..cut], parse)
            == if Utf8.IsCharBoundary(Written(entries, serialise), cut)
               then Some(entries[..FullyWritten(entries, serialise, cut)])
               else None
  {
    hide Lawful, Replayed, FullyWritten, Written, Utf8.IsCharBoundary, Utf8.Valid;
    EveryCutTears(entries, serialise, cut);
    var tear :| TearsAt(entries, serialise, cut, tear);
    var front := entries[..tear.complete];
    TornBytes(entries, serialise, cut, tear);
    FullyWrittenIs(entries, serialise, cut, tear);
    if tear.complete == |entries| {
      assert front == entries;
      CutAtTheEnd(entries, serialise, parse, cut);
    } else {
      var e, piece := entries[tear.complete], Piece(entries, serialise, tear);
      RecordsFirst(front, piece, serialise, parse);
      ReplayPiece(e, tear.piece, serialise, parse);
      PieceValid(entries, serialise, parse, cut, tear);
      assert front + [e] == entries[..tear.complete + 1];
      assert front + [] == front;
    }
  }

  lemma CutAtTheEnd<E(!new)>(entries: seq<E>, serialise: E -> Bytes, parse: Bytes -> Option<E>, cut: nat)
    requires Lawful(serialise, parse) && cut == |Written(entries, serialise)|
    ensures Replayed(Written(entries, serialise)[..cut], parse) == Some(entries[..|entries|])
    ensures Utf8.IsCharBoundary(Written(entries, serialise), cut)
  {
    assert Written(entries, serialise)[..cut] == Written(entries, serialise);
    assert entries[..|entries|] == entries;
    WholeFileReplays(entries, serialise, parse);
  }

  /** Where a character starts in the neighbourhood of an arrow. */
  lemma ArrowBoundaries(line: Bytes, at: nat, n: nat)
    requires Utf8.Valid(line) && OccursAt(line, ARROW, at) && at + 3 < |line| && n <= 3
    ensures Utf8.IsTail(line[at + n]) <==> n == 1 || n == 2
  {
    OccurrenceBytes(line, ARROW, at);
    assert line[at] == ARROW[0] && line[at + 1] == ARROW[1] && line[at + 2] == ARROW[2];
    Utf8.BoundarySplits(line, at);
    var rest := line[at..];
    assert Utf8.CharLength(rest) == 3 && rest[3..][0] == line[at + 3];
    StartsACharacter(rest[3..]);
  }

  lemma RecordTears<E>(entries: seq<E>, serialise: E -> Bytes, k: nat, n: nat)
    requires k < |entries| && n <= |serialise(entries[k])|
    ensures TearsAt(entries, serialise, |Written(entries[..k], serialise)| + n, Tear(k, n))
  {
    hide Written;
  }

  lemma ByteOfRecord<E>(entries: seq<E>, serialise: E -> Bytes, k: nat, n: nat)
    requires k < |entries| && n < |serialise(entries[k])|
    ensures var cut := |Written(entries[..k], serialise)| + n;
            cut < |Written(entries, serialise)| && Written(entries, serialise)[cut] == serialise(entries[k])[n]
  {
    hide Written, TearsAt;
    var front, line := Written(entries[..k], serialise), serialise(entries[k]);
    RecordTears(entries, serialise, k, n + 1);
    TornBytes(entries, serialise, |front| + n + 1, Tear(k, n + 1));
    LastOfPrefix(Written(entries, serialise), front, line, n);
  }

  lemma LastOfPrefix(t: Bytes, a: Bytes, b: Bytes, n: nat)
    requires n < |b| && |a| + n + 1 <= |t| && t[..|a| + n + 1] == a + b[..n + 1]
    ensures t[|a| + n] == b[n]
  {
    assert t[..|a| + n + 1][|a| + n] == t[|a| + n];
  }

  lemma TornInRecord<E>(entries: seq<E>, serialise: E -> Bytes, k: nat, n: nat)
    requires k < |entries| && n < |serialise(entries[k])|
    ensures FullyWritten(entries, serialise, |Written(entries[..k], serialise)| + n) == k
  {
    RecordTears(entries, serialise, k, n);
    hide Written, FullyWritten, TearsAt;
    FullyWrittenIs(entries, serialise, |Written(entries[..k], serialise)| + n, Tear(k, n));
  }

  /** Every force-kill puts an arrow into its record. A file cut one or two bytes into an arrow, in whatever
      record, fails to replay; cut right before or right after it, it gives the records before that one. */
  lemma TornAtArrow<E(!new)>(entries: seq<E>, serialise: E -> Bytes, parse: Bytes -> Option<E>, k: nat, at: nat, n: nat)
    requires Lawful(serialise, parse) && k < |entries| && n <= 3
    requires OccursAt(serialise(entries[k]), ARROW, at) && at + 3 < |serialise(entries[k])|
    ensures var file := Written(entries, serialise);
            var cut := |Written(entries[..k], serialise)| + at + n;
            && cut < |file|
            && Replayed(file[..cut], parse) == if n == 1 || n == 2 then None else Some(entries[..k])
  {
    hide Replayed, Written, FullyWritten, OccursAt, TearsAt, Utf8.IsTail, Utf8.Valid, Utf8.IsCharBoundary, Blank;
    var line, file := serialise(entries[k]), Written(entries, serialise);
    var cut := |Written(entries[..k], serialise)| + at + n;
    assert Utf8.Valid(line);
    hide Lawful;
    ArrowBoundaries(line, at, n);
    ByteOfRecord(entries, serialise, k, at + n);
    TornInRecord(entries, serialise, k, at + n);
    TornFileReplays(entries, serialise, parse, cut);
    BoundaryIff(file, cut);
  }

  lemma BoundaryIff(t: Bytes, i: nat)
    requires i < |t|
    ensures Utf8.IsCharBoundary(t, i) <==> i == 0 || !Utf8.IsTail(t[i])
  {
  }

  datatype Note = Note

  /** A record that is a single JSON string, the arrow. */
  function NoteLine(e: Note): Bytes {
    [0x22] + ARROW + [0x22]
  }

  function ParseNote(line: Bytes): Option<Note> {
    if line == NoteLine(Note) then Some(Note) else None
  }

  lemma NoteIsLawful()
    ensures Lawful(NoteLine, ParseNote)
  {
    var line := NoteLine(Note);
    assert line == [0x22, 0xE2, 0x86, 0x92, 0x22];
    assert line[1..] == [0xE2, 0x86, 0x92, 0x22] && line[1..][3..] == [0x22] && [0x22 as Byte][1..] == [];
    assert Utf8.CharLength(line) == 1 && Utf8.CharLength(line[1..]) == 3;
    assert line[0] == 0x22 && line[0] in line;
    assert !Blank(line) && NEWLINE !in line && RETURN !in line && Utf8.Valid(line);
    hide Blank, Utf8.Valid;
    forall e: Note
      ensures NoteLine(e) == line && ParseNote(line) == Some(e)
      ensures forall n: nat :: n < |line| ==> ParseNote(line[..n]) == None
    {
      assert e.Note?;
    }
  }

  lemma NoteFile()
    ensures Written([Note], NoteLine) == [0x22, 0xE2, 0x86, 0x92, 0x22, NEWLINE]
    ensures Written([Note][..0], NoteLine) == []
    ensures OccursAt(NoteLine(Note), ARROW, 1) && |NoteLine(Note)| == 5
  {
    WrittenOne(Note, NoteLine);
  }

  /** The smallest such file: one record, cut after two bytes. Whole it replays, torn it does not. */
  lemma TornNoteFails()
    ensures Lawful(NoteLine, ParseNote)
    ensures Written([Note], NoteLine) == [0x22, 0xE2, 0x86, 0x92, 0x22, NEWLINE]
    ensures Replayed(Written([Note], NoteLine), ParseNote) == Some([Note])
    ensures Replayed(Written([Note], NoteLine)[..2], ParseNote) == None
  {
    hide Lawful, Replayed, Written, NoteLine, ParseNote, OccursAt;
    NoteIsLawful();
    NoteFile();
    WholeFileReplays([Note], NoteLine, ParseNote);
    TornAtArrow([Note], NoteLine, ParseNote, 0, 1, 1);
  }

  /** The reason of a force-kill has an arrow in it. */
  lemma ForceKillHasArrow()
    ensures Contains(Protocol.FORCE_KILL_REASON, ARROW)
  {
    hide Ascii;
    var head := Ascii("operator force-kill via TUI (kill_confirm Waiting ");
    assert OccursAt(Protocol.FORCE_KILL_REASON, ARROW, |head|);
  }

  // ---------------------------------------------------------------- appending after a crash

  lemma GluedLine<E(!new)>(d: E, n: nat, e: E, t: Bytes, serialise: E -> Bytes, parse: Bytes -> Option<E>)
    requires Lawful(serialise, parse) && GlueUnreadable(serialise, parse) && 0 < n <= |serialise(d)|
    ensures var piece := serialise(d)[..n];
            Replayed(piece + (serialise(e) + [NEWLINE] + t), parse)
            == if Utf8.Valid(piece) then Replayed(t, parse) else None
  {
    hide Replayed, FirstBreak;
    var piece := serialise(d)[..n];
    var line := piece + serialise(e);
    assert NEWLINE !in line && RETURN !in line;
    StartsACharacter(serialise(e));
    JoinValid(piece, serialise(e));
    assert parse(line) == None;
    assert Utf8.Valid(serialise(e));
    hide Lawful, GlueUnreadable, Blank, Utf8.Valid;
    LineFirst(line, t, parse);
    assert piece + (serialise(e) + [NEWLINE] + t) == line + [NEWLINE] + t;
    BothUnit(Replayed(t, parse));
  }

  /** The writer reopens a torn file and appends `more`. Cut between records, nothing is lost. Cut
      inside a record, that record and the first of `more` are lost with it, even if the record had
      only its line break missing. Cut inside a character, the file can never be replayed again. */
  lemma AppendAfterCrash<E(!new)>(entries: seq<E>, serialise: E -> Bytes, parse: Bytes -> Option<E>, cut: nat, tear: Tear, more: seq<E>)
    requires Lawful(serialise, parse) && GlueUnreadable(serialise, parse)
    requires TearsAt(entries, serialise, cut, tear) && more != []
    ensures cut <= |Written(entries, serialise)|
    ensures Replayed(Written(entries, serialise)[..cut] + Written(more, serialise), parse)
            == if !Utf8.IsCharBoundary(Written(entries, serialise), cut) then None
               else Some(entries[..tear.complete] + if tear.piece == 0 then more else more[1..])
  {
    hide Lawful, GlueUnreadable, Replayed, Utf8.IsCharBoundary;
    TornBytes(entries, serialise, cut, tear);
    var front, file := entries[..tear.complete], Written(entries, serialise);
    var later := Written(more, serialise);
    if tear.complete == |entries| {
      assert entries[..tear.complete] == entries;
      CutAtTheEnd(entries, serialise, parse, cut);
      assert file[..cut] == Written(front, serialise);
      RecordsFirst(front, later, serialise, parse);
      WholeFileReplays(more, serialise, parse);
    } else {
      var e, piece := entries[tear.complete], Piece(entries, serialise, tear);
      PieceValid(entries, serialise, parse, cut, tear);
      assert file[..cut] + later == Written(front, serialise) + (piece + later);
      RecordsFirst(front, piece + later, serialise, parse);
      if tear.piece == 0 {
        assert piece == [] && piece + later == later;
        WholeFileReplays(more, serialise, parse);
      } else {
        var rest := Written(more[1..], serialise);
        assert more == [more[0]] + more[1..];
        WrittenSplit([more[0]], more[1..], serialise);
        WrittenOne(more[0], serialise);
        GluedLine(e, tear.piece, more[0], rest, serialise, parse);
        WholeFileReplays(more[1..], serialise, parse);
      }
    }
  }
}
