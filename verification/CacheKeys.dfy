/** The printed form of a fingerprint cache key and its parser (src/fingerprint.rs). */
module CacheKeys {
  import opened Options
  import opened Text

  const TWO63: int := 0x8000_0000_0000_0000
  const TWO64: nat := 0x1_0000_0000_0000_0000

  type U64 = n: nat | n < TWO64
  type I64 = z: int | -TWO63 <= z < TWO63

  datatype CacheKey = CacheKey(dev: U64, inode: U64, mtimeSecs: I64, len: U64)

  const COLON: Byte := 58
  const PLUS: Byte := 43
  const MINUS: Byte := 45

  function SignedDecimal(z: int): (t: Bytes) {
    if z < 0 then [MINUS] + Decimal(-z) else Decimal(z)
  }

  function KeyStr(k: CacheKey): Bytes {
    Decimal(k.dev) + [COLON] + (Decimal(k.inode) + [COLON] + (SignedDecimal(k.mtimeSecs) + [COLON] + Decimal(k.len)))
  }

  /** `split`: the pieces between separators, always at least one. */
  function Split(t: Bytes, sep: Byte): (parts: seq<Bytes>)
    ensures parts != []
  {
    if t == [] then [[]]
    else if t[0] == sep then [[]] + Split(t[1..], sep)
    else
      var rest := Split(t[1..], sep);
      [[t[0]] + rest[0]] + rest[1..]
  }

  /** `str::parse::<u64>`: digits, possibly behind one plus sign, in range. */
  function ParseU64(t: Bytes): Option<U64> {
    var digits := if |t| > 1 && t[0] == PLUS then t[1..] else t;
    if digits == [] || !AllDigits(digits) || Worth(digits) >= TWO64 then None else Some(Worth(digits))
  }

  /** `str::parse::<i64>`: the same behind one sign of either kind. */
  function ParseI64(t: Bytes): Option<I64> {
    var signed := |t| > 1 && (t[0] == PLUS || t[0] == MINUS);
    var digits := if signed then t[1..] else t;
    if digits == [] || !AllDigits(digits) then None
    else
      var z: int := if signed && t[0] == MINUS then 0 - Worth(digits) else Worth(digits);
      if -TWO63 <= z < TWO63 then Some(z) else None
  }

  function ParseKeyStr(t: Bytes): Option<CacheKey> {
    var parts := Split(t, COLON);
    if |parts| != 4 then None
    else
      var dev, inode, mtime, len := ParseU64(parts[0]), ParseU64(parts[1]), ParseI64(parts[2]), ParseU64(parts[3]);
      if dev.None? || inode.None? || mtime.None? || len.None? then None
      else Some(CacheKey(dev.value, inode.value, mtime.value, len.value))
  }

  // ---------------------------------------------------------------- round trip

  lemma {:induction false} SplitFirst(a: Bytes, t: Bytes, sep: Byte)
    requires sep !in a
    ensures Split(a, sep) == [a]
    ensures Split(a + [sep] + t, sep) == [a] + Split(t, sep)
  {
    var all := a + [sep] + t;
    if a == [] {
      assert all[1..] == t;
    } else {
      assert all[1..] == a[1..] + [sep] + t;
      SplitFirst(a[1..], t, sep);
      assert [a[0]] + a[1..] == a;
    }
  }

  lemma DecimalParses(n: U64)
    ensures ParseU64(Decimal(n)) == Some(n)
    ensures COLON !in Decimal(n)
  {
    DecimalWorth(n);
    assert Decimal(n)[0] in Decimal(n);
  }

  lemma SignedDecimalParses(z: I64)
    ensures ParseI64(SignedDecimal(z)) == Some(z)
    ensures COLON !in SignedDecimal(z)
  {
    var n: nat := if z < 0 then 0 - z else z;
    DecimalWorth(n);
    assert Decimal(n)[0] in Decimal(n);
    if z < 0 {
      assert SignedDecimal(z)[1..] == Decimal(n);
    }
  }

  /** Every key reads back, negative modification times included. */
  lemma KeyRoundTrip(k: CacheKey)
    ensures ParseKeyStr(KeyStr(k)) == Some(k)
  {
    hide Split, ParseU64, ParseI64, Decimal, SignedDecimal;
    var dev, inode, mtime, len := Decimal(k.dev), Decimal(k.inode), SignedDecimal(k.mtimeSecs), Decimal(k.len);
    DecimalParses(k.dev);
    DecimalParses(k.inode);
    DecimalParses(k.len);
    SignedDecimalParses(k.mtimeSecs);
    SplitFirst(len, [], COLON);
    SplitFirst(mtime, len, COLON);
    SplitFirst(inode, mtime + [COLON] + len, COLON);
    SplitFirst(dev, inode + [COLON] + (mtime + [COLON] + len), COLON);
    var parts := Split(KeyStr(k), COLON);
    assert parts == [dev] + ([inode] + ([mtime] + [len]));
    assert |parts| == 4 && parts[0] == dev && parts[1] == inode && parts[2] == mtime && parts[3] == len;
  }

  lemma KeyStrInjective(k: CacheKey, l: CacheKey)
    requires KeyStr(k) == KeyStr(l)
    ensures k == l
  {
    KeyRoundTrip(k);
    KeyRoundTrip(l);
  }

  /** The printed form itself: four numbers with colons between, in this order. */
  lemma KeyIsPrinted(k: CacheKey)
    ensures exists dev, inode, mtime, len: Bytes ::
              && KeyStr(k) == dev + [COLON] + inode + [COLON] + mtime + [COLON] + len
              && AllDigits(dev) && Worth(dev) == k.dev && AllDigits(inode) && Worth(inode) == k.inode
              && AllDigits(len) && Worth(len) == k.len
              && (if k.mtimeSecs < 0
                  then mtime != [] && mtime[0] == MINUS && AllDigits(mtime[1..]) && Worth(mtime[1..]) == 0 - (k.mtimeSecs as int)
                  else AllDigits(mtime) && Worth(mtime) == k.mtimeSecs)
  {
    var dev, inode, mtime, len := Decimal(k.dev), Decimal(k.inode), SignedDecimal(k.mtimeSecs), Decimal(k.len);
    DecimalWorth(k.dev);
    DecimalWorth(k.inode);
    DecimalWorth(k.len);
    var n: nat := if k.mtimeSecs < 0 then 0 - k.mtimeSecs as int else k.mtimeSecs;
    DecimalWorth(n);
    hide Decimal, Worth;
    assert k.mtimeSecs < 0 ==> mtime[1..] == Decimal(n);
    Flatten(dev, inode, mtime, len);
  }

  lemma Flatten(a: Bytes, b: Bytes, c: Bytes, d: Bytes)
    ensures a + [COLON] + (b + [COLON] + (c + [COLON] + d)) == a + [COLON] + b + [COLON] + c + [COLON] + d
  {
  }
}
