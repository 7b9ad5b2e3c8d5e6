/** Strings as the byte sequences they are, and the substring and decimal operations on them. */
module Text {
  type Byte = b: int | 0 <= b < 256

  type Bytes = seq<Byte>

  /** The bytes of an ASCII literal. */
  function Ascii(s: string): (t: Bytes)
    ensures |t| == |s|
  {
    seq(|s|, i requires 0 <= i < |s| => if s[i] as int < 128 then s[i] as int else 63)
  }

  /** The three bytes of U+2192. */
  const ARROW: Bytes := [0xE2, 0x86, 0x92]

  /** `needle` occurs in `t` at byte offset `i`. */
  predicate OccursAt(t: Bytes, needle: Bytes, i: nat) {
    i + |needle| <= |t| && t[i..i + |needle|] == needle
  }

  lemma OccurrenceBytes(t: Bytes, needle: Bytes, i: nat)
    requires OccursAt(t, needle, i)
    ensures forall k :: 0 <= k < |needle| ==> t[i + k] == needle[k]
  {
    forall k | 0 <= k < |needle|
      ensures t[i + k] == needle[k]
    {
      assert t[i..i + |needle|][k] == needle[k];
    }
  }

  lemma AbsentByte(t: Bytes, needle: Bytes, b: Byte)
    requires b in needle && b !in t
    ensures forall i: nat :: !OccursAt(t, needle, i)
  {
    forall i: nat
      ensures !OccursAt(t, needle, i)
    {
      if i + |needle| <= |t| {
        assert forall x :: x in t[i..i + |needle|] ==> x in t;
      }
    }
  }

  predicate Contains(t: Bytes, needle: Bytes) {
    exists i: nat :: i <= |t| && OccursAt(t, needle, i)
  }

  function LowerByte(b: Byte): Byte {
    if 65 <= b <= 90 then b + 32 else b
  }

  function AsciiLower(t: Bytes): (r: Bytes)
    ensures |r| == |t|
  {
    seq(|t|, i requires 0 <= i < |t| => LowerByte(t[i]))
  }

  predicate IsDigit(b: Byte) {
    48 <= b <= 57
  }

  predicate AllDigits(t: Bytes) {
    forall b <- t :: IsDigit(b)
  }

  /** What `format!("{}", n)` writes for an unsigned integer. */
  function Decimal(n: nat): (t: Bytes)
    ensures t != [] && AllDigits(t)
    ensures t[0] == 48 ==> n == 0 && t == [48]
  {
    if n < 10 then [48 + n] else Decimal(n / 10) + [48 + n % 10]
  }

  /** What a digit string is worth. */
  function Worth(t: Bytes): nat
    requires AllDigits(t)
  {
    if t == [] then 0
    else
      assert IsDigit(t[|t| - 1]);
      10 * Worth(t[..|t| - 1]) + (t[|t| - 1] as int - 48)
  }

  lemma {:induction false} DecimalWorth(n: nat)
    ensures Worth(Decimal(n)) == n
  {
    if n >= 10 {
      DecimalWorth(n / 10);
      assert Decimal(n)[..|Decimal(n)| - 1] == Decimal(n / 10);
    } else {
      assert Decimal(n)[..0] == [];
    }
  }

  /** Distinct numbers have distinct decimal forms. */
  lemma {:induction false} DecimalInjective(m: nat, n: nat)
    requires Decimal(m) == Decimal(n)
    ensures m == n
  {
    DecimalWorth(m);
    DecimalWorth(n);
  }
}
