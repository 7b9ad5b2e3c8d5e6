/** Keyword search with word boundaries (src/classifier/keyword_match.rs). The scan looks only at
    occurrences that do not overlap; this says for which keywords that is enough. */
module KeywordMatch {
  import opened Options
  import opened Text

  const BOUNDARY_MAX_LEN: nat := 3

  predicate IsWordChar(b: Byte) {
    IsDigit(b) || 65 <= b <= 90 || 97 <= b <= 122
  }

  /** No word character touches the `n` bytes at `i`. */
  predicate Bounded(h: Bytes, i: nat, n: nat) {
    (i == 0 || i > |h| || !IsWordChar(h[i - 1])) && (i + n >= |h| || !IsWordChar(h[i + n]))
  }

  /** The leftmost occurrence at or after `from`. */
  function NextOccurrence(h: Bytes, needle: Bytes, from: nat): (r: Option<nat>)
    ensures r.Some? ==> from <= r.value && OccursAt(h, needle, r.value)
    ensures forall i: nat :: from <= i < (if r.Some? then r.value else |h| + 1) ==> !OccursAt(h, needle, i)
    decreases |h| + 1 - from
  {
    if from > |h| then None
    else if OccursAt(h, needle, from) then Some(from)
    else NextOccurrence(h, needle, from + 1)
  }

  /** `match_indices(needle).any(..)`, from byte `from` on. */
  function ScanFrom(h: Bytes, needle: Bytes, from: nat): bool
    requires needle != []
    decreases |h| + 1 - from
  {
    var next := NextOccurrence(h, needle, from);
    next.Some? && (Bounded(h, next.value, |needle|) || ScanFrom(h, needle, next.value + |needle|))
  }

  function HasWordBoundaryMatch(h: Bytes, needle: Bytes): bool
    requires needle != []
  {
    ScanFrom(h, needle, 0)
  }

  /** `lower` is the lower-casing of strings; it leaves no string empty that was not. */
  function SmartKeywordMatch(text: Bytes, keyword: Bytes, lower: Bytes -> Bytes): bool
    requires keyword != [] ==> lower(keyword) != []
  {
    if keyword == [] then false
    else if |keyword| <= BOUNDARY_MAX_LEN then HasWordBoundaryMatch(lower(text), lower(keyword))
    else Contains(lower(text), lower(keyword))
  }

  // ---------------------------------------------------------------- what the scan finds

  /** The promise: some occurrence, overlapping another or not, with no word character on either side. */
  predicate StandsAlone(h: Bytes, needle: Bytes) {
    exists i: nat :: i <= |h| && OccursAt(h, needle, i) && Bounded(h, i, |needle|)
  }

  /** The needle can follow itself at distance `d`, and the byte before the later one ends a word. */
  predicate OverlapsAfterBreak(needle: Bytes, d: nat) {
    0 < d < |needle| && needle[d..] == needle[..|needle| - d] && !IsWordChar(needle[d - 1])
  }

  predicate Scannable(needle: Bytes) {
    forall d :: 0 < d < |needle| ==> !OverlapsAfterBreak(needle, d)
  }

  /** What the scan finds is there, for every needle. */
  lemma {:induction false} ScanIsSound(h: Bytes, needle: Bytes, from: nat)
    requires needle != [] && ScanFrom(h, needle, from)
    ensures StandsAlone(h, needle)
    decreases |h| + 1 - from
  {
    var p := NextOccurrence(h, needle, from).value;
    if !Bounded(h, p, |needle|) {
      ScanIsSound(h, needle, p + |needle|);
    }
  }

  lemma OverlapIsPeriod(h: Bytes, needle: Bytes, p: nat, q: nat)
    requires OccursAt(h, needle, p) && OccursAt(h, needle, q) && p < q < p + |needle|
    requires Bounded(h, q, |needle|)
    ensures OverlapsAfterBreak(needle, q - p)
  {
    OccurrenceBytes(h, needle, p);
    OccurrenceBytes(h, needle, q);
    var d, n := q - p, |needle|;
    forall k | 0 <= k < n - d
      ensures needle[d..][k] == needle[..n - d][k]
    {
      assert h[q + k] == needle[k];
      assert h[p + (d + k)] == needle[d + k];
    }
    assert h[p + (d - 1)] == needle[d - 1];
  }

  lemma {:induction false} ScanIsComplete(h: Bytes, needle: Bytes, from: nat, q: nat)
    requires needle != [] && Scannable(needle)
    requires from <= q <= |h| && OccursAt(h, needle, q) && Bounded(h, q, |needle|)
    ensures ScanFrom(h, needle, from)
    decreases |h| + 1 - from
  {
    hide OccursAt, Bounded, OverlapsAfterBreak;
    var p := NextOccurrence(h, needle, from).value;
    if !Bounded(h, p, |needle|) {
      if q < p + |needle| {
        OverlapIsPeriod(h, needle, p, q);
      }
      ScanIsComplete(h, needle, p + |needle|, q);
    }
  }

  /** A haystack the scan gets wrong: a letter, the part before the overlap, and the needle. */
  function Trap(needle: Bytes, d: nat): Bytes
    requires d <= |needle|
  {
    [120] + needle[..d] + needle
  }

  lemma TrapHolds(needle: Bytes, d: nat)
    requires OverlapsAfterBreak(needle, d)
    ensures var h := Trap(needle, d);
            && OccursAt(h, needle, 1 + d) && Bounded(h, 1 + d, |needle|)
            && OccursAt(h, needle, 1) && !Bounded(h, 1, |needle|)
            && !OccursAt(h, needle, 0)
  {
    var h, n := Trap(needle, d), |needle|;
    assert h[1 + d..1 + d + n] == needle;
    assert h[1..1 + n] == needle[..d] + needle[..n - d] == needle[..d] + needle[d..] == needle;
    NeighboursAreConstant(h, needle);
    assert needle[d - 1] != 120 && h[0] == 120;
  }

  /** A string that occurs at two neighbouring places is one byte repeated. */
  lemma NeighboursAreConstant(h: Bytes, needle: Bytes)
    ensures OccursAt(h, needle, 0) && OccursAt(h, needle, 1) ==> forall k :: 0 <= k < |needle| ==> needle[k] == h[0]
  {
    if OccursAt(h, needle, 0) && OccursAt(h, needle, 1) {
      OccurrenceBytes(h, needle, 0);
      OccurrenceBytes(h, needle, 1);
      for i := 0 to |needle|
        invariant forall k :: 0 <= k < i ==> needle[k] == h[0]
      {
        if i > 0 {
          assert h[0 + i] == needle[i] && h[1 + (i - 1)] == needle[i - 1];
        }
      }
    }
  }

  lemma TrapFoolsTheScan(needle: Bytes, d: nat)
    requires OverlapsAfterBreak(needle, d)
    ensures StandsAlone(Trap(needle, d), needle) && !HasWordBoundaryMatch(Trap(needle, d), needle)
  {
    var h := Trap(needle, d);
    TrapHolds(needle, d);
    hide Trap, Bounded;
    assert |h| == 1 + d + |needle| by {
      TrapLength(needle, d);
    }
    var next := NextOccurrence(h, needle, 0);
    assert next == Some(1) by {
      assert OccursAt(h, needle, 1) && !OccursAt(h, needle, 0);
    }
    assert NextOccurrence(h, needle, 1 + |needle|).None?;
    hide NextOccurrence, OccursAt;
    assert !ScanFrom(h, needle, 1 + |needle|);
    assert !ScanFrom(h, needle, 0);
  }

  lemma TrapLength(needle: Bytes, d: nat)
    requires d <= |needle|
    ensures |Trap(needle, d)| == 1 + d + |needle|
  {
  }

  /** The scan is right on every haystack exactly for the needles that cannot overlap themselves
      right behind a non-word byte. */
  lemma ScanExactIffScannable(needle: Bytes)
    requires needle != []
    ensures (forall h :: HasWordBoundaryMatch(h, needle) <==> StandsAlone(h, needle)) <==> Scannable(needle)
  {
    if Scannable(needle) {
      forall h
        ensures HasWordBoundaryMatch(h, needle) <==> StandsAlone(h, needle)
      {
        if HasWordBoundaryMatch(h, needle) {
          ScanIsSound(h, needle, 0);
        }
        if StandsAlone(h, needle) {
          var q: nat :| q <= |h| && OccursAt(h, needle, q) && Bounded(h, q, |needle|);
          ScanIsComplete(h, needle, 0, q);
        }
      }
    } else {
      var d :| 0 < d < |needle| && OverlapsAfterBreak(needle, d);
      TrapFoolsTheScan(needle, d);
    }
  }

  /** Needles of letters and digits, as all short keywords of the tables are. */
  lemma WordNeedlesAreScannable(needle: Bytes)
    requires forall b <- needle :: IsWordChar(b)
    ensures Scannable(needle)
  {
    forall d | 0 < d < |needle|
      ensures !OverlapsAfterBreak(needle, d)
    {
      assert needle[d - 1] in needle;
    }
  }

  /** The documented rule for a whole keyword, in either length class. */
  lemma KeywordRule(text: Bytes, keyword: Bytes, lower: Bytes -> Bytes)
    requires keyword != [] ==> lower(keyword) != []
    requires Scannable(lower(keyword)) || |keyword| > 3
    ensures SmartKeywordMatch(text, keyword, lower)
            <==> && keyword != []
                 && exists i: nat :: && i <= |lower(text)| && OccursAt(lower(text), lower(keyword), i)
                                     && (|keyword| <= 3 ==> Bounded(lower(text), i, |lower(keyword)|))
  {
    if keyword != [] && |keyword| <= 3 {
      ScanExactIffScannable(lower(keyword));
      assert HasWordBoundaryMatch(lower(text), lower(keyword)) <==> StandsAlone(lower(text), lower(keyword));
    }
  }

  /** The smallest such needle, and a text that contains it as a word of its own. */
  lemma DashedNeedleMissed()
    ensures StandsAlone(Ascii("xa-a-a"), Ascii("a-a")) && !HasWordBoundaryMatch(Ascii("xa-a-a"), Ascii("a-a"))
  {
    var needle := Ascii("a-a");
    assert needle == [97, 45, 97];
    assert OverlapsAfterBreak(needle, 2);
    assert Trap(needle, 2) == Ascii("xa-a-a") by {
      assert Ascii("xa-a-a") == [120, 97, 45, 97, 45, 97];
      assert needle[..2] == [97, 45];
    }
    TrapFoolsTheScan(needle, 2);
  }

  /** The characters of words are the ASCII letters and digits. */
  lemma WordCharacters(c: char)
    requires c as int < 256
    ensures IsWordChar(c as int) <==> 'a' <= c <= 'z' || 'A' <= c <= 'Z' || '0' <= c <= '9'
  {
  }
}
