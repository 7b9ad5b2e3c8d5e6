/** UTF-8 well-formedness as section 3 and section 4 of RFC 3629 give it, and the two loops of
    the repository that cut a line at a byte limit without splitting a character. */
module Utf8 {
  import opened Text

  predicate IsTail(b: Byte) {
    0x80 <= b <= 0xBF
  }

  /** The length of the well-formed character at the start of `t`; 0 when there is none. */
  function CharLength(t: Bytes): (n: nat)
    ensures n <= 4 && n <= |t|
    ensures n > 0 ==> !IsTail(t[0]) && forall i :: 1 <= i < n ==> IsTail(t[i])
  {
    if t == [] then 0
    else if t[0] <= 0x7F then 1
    else if 0xC2 <= t[0] <= 0xDF && |t| >= 2 && IsTail(t[1]) then 2
    else if 0xE0 <= t[0] <= 0xEF && |t| >= 3 && IsTail(t[1]) && IsTail(t[2])
            && (t[0] == 0xE0 ==> t[1] >= 0xA0) && (t[0] == 0xED ==> t[1] <= 0x9F) then 3
    else if 0xF0 <= t[0] <= 0xF4 && |t| >= 4 && IsTail(t[1]) && IsTail(t[2]) && IsTail(t[3])
            && (t[0] == 0xF0 ==> t[1] >= 0x90) && (t[0] == 0xF4 ==> t[1] <= 0x8F) then 4
    else 0
  }

  predicate Valid(t: Bytes)
    decreases |t|
  {
    t == [] || (CharLength(t) > 0 && Valid(t[CharLength(t)..]))
  }

  /** `str::is_char_boundary`: the ends of the string, and every byte that starts a character. */
  predicate IsCharBoundary(t: Bytes, i: nat) {
    i == 0 || i == |t| || (i < |t| && !IsTail(t[i]))
  }

  /** In a valid string the boundary test on one byte is the same as "both sides are valid". */
  lemma {:induction false} BoundarySplits(t: Bytes, i: nat)
    requires Valid(t) && i <= |t| && IsCharBoundary(t, i)
    ensures Valid(t[..i]) && Valid(t[i..])
    decreases |t|
  {
    hide CharLength;
    if i == 0 {
      assert t[..0] == [] && t[0..] == t;
    } else {
      var n := CharLength(t);
      assert i >= n;
      BoundarySplits(t[n..], i - n);
      assert t[n..][i - n..] == t[i..];
      assert t[n..][..i - n] == t[..i][n..];
      CharLengthOfPrefix(t, i);
    }
  }

  lemma CharLengthOfPrefix(t: Bytes, i: nat)
    requires CharLength(t) > 0 && CharLength(t) <= i <= |t|
    ensures CharLength(t[..i]) == CharLength(t)
  {
  }

  /** A valid string has a boundary among any four neighbouring offsets. */
  lemma {:induction false} BoundaryNearby(t: Bytes, limit: nat)
    requires Valid(t) && limit <= |t|
    ensures exists i: nat :: i <= limit <= i + 3 && IsCharBoundary(t, i)
    decreases |t|
  {
    var n := CharLength(t);
    if limit < n || t == [] {
      assert IsCharBoundary(t, 0);
    } else {
      BoundaryNearby(t[n..], limit - n);
      var i: nat :| i <= limit - n <= i + 3 && IsCharBoundary(t[n..], i);
      assert IsCharBoundary(t, n + i) by {
        if 0 < i < |t| - n {
          assert t[n..][i] == t[n + i];
        } else if i == 0 && n < |t| {
          assert CharLength(t[n..]) > 0 && t[n..][0] == t[n];
        }
      }
    }
  }

  /** The backwards search both loops run: the largest boundary at or below `end`. */
  function ClipEnd(t: Bytes, end: nat): (r: nat)
    ensures r <= end && IsCharBoundary(t, r)
    ensures forall i: nat :: r < i <= end ==> !IsCharBoundary(t, i)
  {
    if IsCharBoundary(t, end) then end else ClipEnd(t, end - 1)
  }

  /** The line as it is kept: itself when it fits, else cut at the boundary the search finds. */
  function Clip(t: Bytes, limit: nat): Bytes {
    if |t| <= limit then t else t[..ClipEnd(t, limit)]
  }

  /** What clipping promises on every valid line: a valid prefix, within the limit, at most three
      bytes short of it when it cuts, and the longest such prefix. */
  lemma ClipIsValidAndTight(t: Bytes, limit: nat)
    requires Valid(t)
    ensures var c := Clip(t, limit);
            && c <= t && Valid(c) && |c| <= limit
            && (|t| > limit ==> |c| + 3 >= limit)
            && (forall n: nat :: n <= limit && n <= |t| && Valid(t[..n]) ==> n <= |c|)
  {
    var c := Clip(t, limit);
    if |t| > limit {
      BoundaryNearby(t, limit);
      BoundarySplits(t, |c|);
      forall n: nat | n <= limit && Valid(t[..n])
        ensures n <= |c|
      {
        ValidPrefixEndsAtBoundary(t, n);
      }
    }
  }

  /** Conversely, a valid prefix of a valid string ends at a boundary. */
  lemma {:induction false} ValidPrefixEndsAtBoundary(t: Bytes, n: nat)
    requires Valid(t) && n <= |t| && Valid(t[..n])
    ensures IsCharBoundary(t, n)
    decreases |t|
  {
    if 0 < n < |t| {
      var k := CharLength(t[..n]);
      assert CharLength(t) == k by {
        assert forall i :: 0 <= i < n ==> t[..n][i] == t[i];
      }
      assert t[..n][k..] == t[k..][..n - k];
      ValidPrefixEndsAtBoundary(t[k..], n - k);
      if n == k {
        assert t[k..] != [] && t[k..][0] == t[n];
      } else {
        assert t[k..][n - k] == t[n];
      }
    }
  }

  lemma {:induction false} ValidConcat(a: Bytes, b: Bytes)
    requires Valid(a) && Valid(b)
    ensures Valid(a + b)
    decreases |a|
  {
    hide CharLength;
    if a == [] {
      assert a + b == b;
    } else {
      var n := CharLength(a);
      ValidConcat(a[n..], b);
      assert (a + b)[n..] == a[n..] + b;
      assert (a + b)[..|a|] == a;
      CharLengthOfExtension(a, b);
    }
  }

  lemma CharLengthOfExtension(a: Bytes, b: Bytes)
    requires CharLength(a) > 0
    ensures CharLength(a + b) == CharLength(a)
  {
  }

  // ---------------------------------------------------------------- what well-formed means

  /** A character number that may be encoded: up to U+10FFFF, without the surrogates. */
  predicate IsScalar(c: nat) {
    c < 0x110000 && !(0xD800 <= c <= 0xDFFF)
  }

  /** The table of section 3 of RFC 3629. */
  function Encode(c: nat): (t: Bytes)
    requires IsScalar(c)
    ensures 1 <= |t| <= 4
  {
    if c < 0x80 then [c]
    else if c < 0x800 then [0xC0 + c / 64, 0x80 + c % 64]
    else if c < 0x10000 then [0xE0 + c / 4096, 0x80 + c / 64 % 64, 0x80 + c % 64]
    else [0xF0 + c / 262144, 0x80 + c / 4096 % 64, 0x80 + c / 64 % 64, 0x80 + c % 64]
  }

  function EncodeAll(chars: seq<nat>): Bytes
    requires forall c <- chars :: IsScalar(c)
  {
    if chars == [] then [] else Encode(chars[0]) + EncodeAll(chars[1..])
  }

  /** The character that the first bytes stand for. */
  function FirstOf(t: Bytes): nat
    requires CharLength(t) > 0
  {
    var n := CharLength(t);
    if n == 1 then t[0]
    else if n == 2 then Number(0, 0, t[0] as int - 0xC0, t[1] as int - 0x80)
    else if n == 3 then Number(0, t[0] as int - 0xE0, t[1] as int - 0x80, t[2] as int - 0x80)
    else Number(t[0] as int - 0xF0, t[1] as int - 0x80, t[2] as int - 0x80, t[3] as int - 0x80)
  }

  function Number(a: nat, b: nat, c: nat, d: nat): nat {
    a * 262144 + b * 4096 + c * 64 + d
  }

  lemma Digits(a: nat, b: nat, c: nat, d: nat)
    requires b < 64 && c < 64 && d < 64
    ensures var n := Number(a, b, c, d);
            n % 64 == d && n / 64 % 64 == c && n / 4096 % 64 == b && n / 262144 == a
    ensures a == 0 ==> Number(a, b, c, d) / 4096 == b
    ensures a == 0 && b == 0 ==> Number(a, b, c, d) / 64 == c
  {
    var n := Number(a, b, c, d);
    assert n / 64 == a * 4096 + b * 64 + c;
    assert n / 4096 == a * 64 + b;
  }

  lemma TwoBytes(a: Byte, b: Byte)
    requires 0xC2 <= a <= 0xDF && IsTail(b)
    ensures var c := Number(0, 0, a as int - 0xC0, b as int - 0x80);
            IsScalar(c) && Encode(c) == [a, b]
  {
    Digits(0, 0, a as int - 0xC0, b as int - 0x80);
  }

  lemma ThreeBytes(a: Byte, b: Byte, c: Byte)
    requires 0xE0 <= a <= 0xEF && IsTail(b) && IsTail(c) && (a == 0xE0 ==> b >= 0xA0) && (a == 0xED ==> b <= 0x9F)
    ensures var n := Number(0, a as int - 0xE0, b as int - 0x80, c as int - 0x80);
            IsScalar(n) && Encode(n) == [a, b, c]
  {
    Digits(0, a as int - 0xE0, b as int - 0x80, c as int - 0x80);
  }

  lemma FourBytes(a: Byte, b: Byte, c: Byte, d: Byte)
    requires 0xF0 <= a <= 0xF4 && IsTail(b) && IsTail(c) && IsTail(d) && (a == 0xF0 ==> b >= 0x90) && (a == 0xF4 ==> b <= 0x8F)
    ensures var n := Number(a as int - 0xF0, b as int - 0x80, c as int - 0x80, d as int - 0x80);
            IsScalar(n) && Encode(n) == [a, b, c, d]
  {
    Digits(a as int - 0xF0, b as int - 0x80, c as int - 0x80, d as int - 0x80);
  }

  lemma FirstIsEncoded(t: Bytes)
    requires CharLength(t) > 0
    ensures IsScalar(FirstOf(t)) && Encode(FirstOf(t)) == t[..CharLength(t)]
  {
    var n := CharLength(t);
    if n == 2 {
      TwoBytes(t[0], t[1]);
    } else if n == 3 {
      ThreeBytes(t[0], t[1], t[2]);
    } else if n == 4 {
      FourBytes(t[0], t[1], t[2], t[3]);
    }
    hide Number;
  }

  lemma EncodedIsFirst(c: nat, t: Bytes)
    requires IsScalar(c)
    ensures CharLength(Encode(c) + t) == |Encode(c)|
  {
  }

  lemma OneMoreCharacter(c: nat, rest: seq<nat>, t: Bytes)
    requires IsScalar(c) && (forall d <- rest :: IsScalar(d)) && t == Encode(c) + EncodeAll(rest)
    ensures (forall d <- [c] + rest :: IsScalar(d)) && EncodeAll([c] + rest) == t
  {
    hide Encode, IsScalar;
    assert ([c] + rest)[0] == c && ([c] + rest)[1..] == rest;
  }

  lemma {:induction false} ValidMeansEncoded(t: Bytes) returns (chars: seq<nat>)
    requires Valid(t)
    ensures (forall c <- chars :: IsScalar(c)) && t == EncodeAll(chars)
    decreases |t|
  {
    if t == [] {
      chars := [];
    } else {
      hide CharLength, Encode, FirstOf, IsScalar, EncodeAll;
      var n := CharLength(t);
      FirstIsEncoded(t);
      var rest := ValidMeansEncoded(t[n..]);
      assert t == t[..n] + t[n..];
      OneMoreCharacter(FirstOf(t), rest, t);
      chars := [FirstOf(t)] + rest;
    }
  }

  lemma {:induction false} EncodedIsValid(chars: seq<nat>)
    requires forall c <- chars :: IsScalar(c)
    ensures Valid(EncodeAll(chars))
  {
    if chars != [] {
      var first, rest := Encode(chars[0]), EncodeAll(chars[1..]);
      EncodedIsValid(chars[1..]);
      EncodedIsFirst(chars[0], rest);
      hide CharLength, Encode;
      assert (first + rest)[|first|..] == rest;
    }
  }

  /** The validity used everywhere here is the one of RFC 3629: some characters encoded one after the other. */
  lemma ValidIffEncoded(t: Bytes)
    ensures Valid(t) <==> exists chars: seq<nat> :: (forall c <- chars :: IsScalar(c)) && t == EncodeAll(chars)
  {
    if Valid(t) {
      var chars := ValidMeansEncoded(t);
    }
    if chars: seq<nat> :| (forall c <- chars :: IsScalar(c)) && t == EncodeAll(chars) {
      EncodedIsValid(chars);
    }
  }
}
