/** Model fingerprints (src/fingerprint.rs): what part of a file the hash sees, and the cache that is
    to make hashing it again unnecessary. The hash function itself is a parameter. */
module Fingerprint {
  import opened Options
  import opened Text
  import opened CacheKeys

  const HEAD_BYTES: nat := 1_048_576
  const TAIL_BYTES: nat := 65_536

  // ---------------------------------------------------------------- the hashed bytes

  /** `to_le_bytes` of a width of `w` bytes. */
  function LittleEndian(n: nat, w: nat): (t: Bytes)
    ensures |t| == w
  {
    if w == 0 then [] else [n % 256] + LittleEndian(n / 256, w - 1)
  }

  function Min(a: nat, b: nat): nat {
    if a <= b then a else b
  }

  /** The bytes fed to the hash when the one `read` of the head returns `got` bytes. */
  function Hashed(file: Bytes, got: nat): Bytes
    requires got <= |file|
  {
    LittleEndian(|file|, 8) + file[..got]
    + if |file| > HEAD_BYTES + TAIL_BYTES then file[|file| - TAIL_BYTES..] else []
  }

  /** The same when the read fills its buffer. */
  function Preimage(file: Bytes): Bytes {
    Hashed(file, Min(HEAD_BYTES, |file|))
  }

  /** A read that stops short gives the same file other bytes to hash. */
  lemma ShortReadShows(file: Bytes, got: nat)
    requires got < Min(HEAD_BYTES, |file|)
    ensures Hashed(file, got) != Preimage(file)
  {
    assert |Hashed(file, got)| < |Preimage(file)|;
  }

  lemma {:induction false} LittleEndianInjective(m: nat, n: nat, w: nat, bound: nat)
    requires LittleEndian(m, w) == LittleEndian(n, w)
    requires m < bound && n < bound && bound == Power256(w)
    ensures m == n
  {
    if w > 0 {
      assert LittleEndian(m, w)[0] == m % 256 && LittleEndian(n, w)[0] == n % 256;
      assert LittleEndian(m, w)[1..] == LittleEndian(m / 256, w - 1);
      assert LittleEndian(n, w)[1..] == LittleEndian(n / 256, w - 1);
      LittleEndianInjective(m / 256, n / 256, w - 1, Power256(w - 1));
    }
  }

  /** What bytes are worth, the first one least. */
  function WorthOf(t: Bytes): nat {
    if t == [] then 0 else t[0] + 256 * WorthOf(t[1..])
  }

  lemma {:induction false} LittleEndianWorth(n: nat, w: nat)
    requires n < Power256(w)
    ensures WorthOf(LittleEndian(n, w)) == n
  {
    if w > 0 {
      LittleEndianWorth(n / 256, w - 1);
      assert LittleEndian(n, w)[1..] == LittleEndian(n / 256, w - 1);
    }
  }

  /** What is hashed, in order: eight bytes worth the length, the bytes of the head that were read, and the last bytes of
      a file longer than head and tail. */
  lemma HashedLayout(file: Bytes, got: nat)
    requires got <= |file| < TWO64
    ensures var h := Hashed(file, got);
            && |h| >= 8 + got && WorthOf(h[..8]) == |file| && h[8..8 + got] == file[..got]
            && h[8 + got..] == if |file| > 1048576 + 65536 then file[|file| - 65536..] else []
  {
    EightBytes();
    LittleEndianWorth(|file|, 8);
    hide LittleEndian;
    assert Hashed(file, got)[..8] == LittleEndian(|file|, 8);
  }

  function Power256(w: nat): nat {
    if w == 0 then 1 else 256 * Power256(w - 1)
  }

  /** What agreement the hash can see. */
  predicate AgreeWhereHashed(a: Bytes, b: Bytes) {
    && |a| == |b|
    && a[..Min(HEAD_BYTES, |a|)] == b[..Min(HEAD_BYTES, |a|)]
    && (|a| > HEAD_BYTES + TAIL_BYTES ==> a[|a| - TAIL_BYTES..] == b[|a| - TAIL_BYTES..])
  }

  lemma PreimageEqualIffAgree(a: Bytes, b: Bytes)
    requires |a| < TWO64 && |b| < TWO64
    ensures Preimage(a) == Preimage(b) <==> AgreeWhereHashed(a, b)
  {
    hide LittleEndian;
    if Preimage(a) == Preimage(b) {
      assert Preimage(a)[..8] == LittleEndian(|a|, 8) && Preimage(b)[..8] == LittleEndian(|b|, 8);
      EightBytes();
      LittleEndianInjective(|a|, |b|, 8, TWO64);
      var head := Min(HEAD_BYTES, |a|);
      assert Preimage(a)[8..8 + head] == a[..head] && Preimage(b)[8..8 + head] == b[..head];
      if |a| > HEAD_BYTES + TAIL_BYTES {
        assert Preimage(a)[8 + head..] == a[|a| - TAIL_BYTES..];
        assert Preimage(b)[8 + head..] == b[|b| - TAIL_BYTES..];
      }
    }
  }

  lemma EightBytes()
    ensures Power256(8) == TWO64
  {
    assert Power256(4) == 0x1_0000_0000;
  }

  /** The three updates of the hash. After a full read the bytes fed to it are those of another file exactly
      if the two agree where the hash looks. */
  method FeedHash(file: Bytes, got: nat) returns (hashed: Bytes)
    requires got <= Min(HEAD_BYTES, |file|) && |file| < TWO64
    ensures hashed == Hashed(file, got)
    ensures got == Min(HEAD_BYTES, |file|) ==>
              forall other: Bytes :: |other| < TWO64 ==> (hashed == Preimage(other) <==> AgreeWhereHashed(file, other))
  {
    hashed := LittleEndian(|file|, 8);
    hashed := hashed + file[..got];
    if |file| > HEAD_BYTES + TAIL_BYTES {
      var tail := file[|file| - TAIL_BYTES..];
      hashed := hashed + tail;
    }
    assert hashed == Hashed(file, got);
    if got == Min(HEAD_BYTES, |file|) {
      forall other: Bytes | |other| < TWO64
        ensures hashed == Preimage(other) <==> AgreeWhereHashed(file, other)
      {
        PreimageEqualIffAgree(file, other);
      }
    }
  }

  /** Small files are covered in full. */
  lemma InjectiveUpToHead(a: Bytes, b: Bytes)
    requires |a| <= HEAD_BYTES && |b| < TWO64
    ensures Preimage(a) == Preimage(b) <==> a == b
  {
    PreimageEqualIffAgree(a, b);
    assert a[..|a|] == a && b[..|b|] == b;
  }

  /** A byte makes a difference exactly when it lies in the head, or in the tail of a file longer than
      head and tail together. In a file between the two sizes the bytes after the head do not. */
  lemma ByteCovered(a: Bytes, i: nat, x: Byte)
    requires i < |a| < TWO64 && x != a[i]
    ensures Preimage(a[i := x]) != Preimage(a)
            <==> i < HEAD_BYTES || (|a| > HEAD_BYTES + TAIL_BYTES && i >= |a| - TAIL_BYTES)
  {
    var b, head := a[i := x], Min(HEAD_BYTES, |a|);
    PreimageEqualIffAgree(a, b);
    if i < head {
      assert a[..head][i] != b[..head][i];
    } else {
      assert a[..head] == b[..head];
      if |a| > HEAD_BYTES + TAIL_BYTES {
        var at := |a| - TAIL_BYTES;
        if i >= at {
          assert a[at..][i - at] != b[at..][i - at];
        } else {
          assert a[at..] == b[at..];
        }
      }
    }
  }

  // ---------------------------------------------------------------- the cache

  const CACHE_VERSION: nat := 1

  type Entries = map<CacheKey, Bytes>

  /** The cache file: not there or not readable, not the expected JSON, or a version and its entries. */
  datatype Disk = Missing | Malformed | OnDisk(version: nat, entries: map<Bytes, Bytes>)

  /** How far a save gets. */
  datatype SaveOutcome = NoDirectory | NotOpened | Torn | Saved

  /** What the file system and the hash answer for one call. */
  datatype Look = Look(meta: Option<CacheKey>, hash: Option<Bytes>)

  /** The entries whose key parses. Two spellings of one key leave the choice to the map's order. */
  ghost predicate LoadsFrom(entries: map<Bytes, Bytes>, m: Entries) {
    && (forall t <- entries :: ParseKeyStr(t).Some? ==> ParseKeyStr(t).value in m)
    && (forall k <- m :: exists t <- entries :: ParseKeyStr(t) == Some(k) && entries[t] == m[k])
  }

  ghost predicate Loads(disk: Disk, m: Entries) {
    if disk.OnDisk? && disk.version == 1 then LoadsFrom(disk.entries, m) else m == map[]
  }

  function Printed(m: Entries): (r: map<Bytes, Bytes>) {
    KeysDistinct();
    map k <- m :: KeyStr(k) := m[k]
  }

  lemma PrintedHolds(m: Entries)
    ensures forall t <- Printed(m) :: exists k <- m :: KeyStr(k) == t && ParseKeyStr(t) == Some(k) && Printed(m)[t] == m[k]
    ensures forall k <- m :: KeyStr(k) in Printed(m) && ParseKeyStr(KeyStr(k)) == Some(k)
  {
    hide ParseKeyStr, KeyStr;
    KeysDistinct();
    forall k: CacheKey
      ensures ParseKeyStr(KeyStr(k)) == Some(k)
    {
      KeyRoundTrip(k);
    }
  }

  lemma KeysDistinct()
    ensures forall k, l :: KeyStr(k) == KeyStr(l) ==> k == l
  {
    forall k, l | KeyStr(k) == KeyStr(l)
      ensures k == l
    {
      KeyStrInjective(k, l);
    }
  }

  method LoadCache(disk: Disk) returns (m: Entries)
    ensures Loads(disk, m)
  {
    m := map[];
    if !disk.OnDisk? || disk.version != CACHE_VERSION {
      return;
    }
    var todo := disk.entries.Keys;
    while todo != {}
      invariant todo <= disk.entries.Keys
      invariant forall t <- disk.entries :: t in todo || (ParseKeyStr(t).Some? ==> ParseKeyStr(t).value in m)
      invariant forall k <- m :: exists t <- disk.entries :: ParseKeyStr(t) == Some(k) && disk.entries[t] == m[k]
    {
      hide ParseKeyStr;
      var t :| t in todo;
      todo := todo - {t};
      var key := ParseKeyStr(t);
      if key.Some? {
        m := m[key.value := disk.entries[t]];
      }
    }
  }

  class Fingerprinter {
    const hasPath: bool
    var inMemory: Entries
    var dirty: bool

    /** `open`. */
    constructor (hasPath: bool, disk: Disk)
      ensures this.hasPath == hasPath && !dirty
      ensures if hasPath then Loads(disk, inMemory) else inMemory == map[]
    {
      this.hasPath, dirty, inMemory := hasPath, false, map[];
      new;
      if hasPath {
        inMemory := LoadCache(disk);
      }
    }

    method Fingerprint(look: Look) returns (r: Option<Bytes>)
      modifies this
      ensures (Cache(inMemory, dirty), r) == Ask(Cache(old(inMemory), old(dirty)), look)
    {
      if look.meta.None? {
        return None;
      }
      var key := look.meta.value;
      if key in inMemory {
        return Some(inMemory[key]);
      }
      if look.hash.None? {
        return None;
      }
      inMemory := inMemory[key := look.hash.value];
      dirty := true;
      r := look.hash;
    }

    method Persist(disk: Disk, outcome: SaveOutcome) returns (after: Disk)
      modifies this
      ensures inMemory == old(inMemory)
      ensures (Cache(inMemory, dirty), after) == Save(hasPath, Cache(old(inMemory), old(dirty)), disk, outcome)
    {
      after := disk;
      if !dirty || !hasPath || outcome.NoDirectory? {
        return;
      }
      if outcome.Saved? {
        after := OnDisk(CACHE_VERSION, Printed(inMemory));
      } else if outcome.Torn? {
        after := Malformed;
      }
      dirty := false;
    }
  }

  // ---------------------------------------------------------------- the cache as a state machine

  datatype Cache = Cache(inMemory: Entries, dirty: bool)

  datatype World = World(cache: Cache, disk: Disk)

  /** `Reopen` drops the fingerprinter, which saves, and opens another one on what the disk then holds. */
  datatype Op = Query(look: Look) | Persist(outcome: SaveOutcome) | Reopen(outcome: SaveOutcome, loaded: Entries)

  function Ask(c: Cache, look: Look): (Cache, Option<Bytes>) {
    if look.meta.None? then (c, None)
    else if look.meta.value in c.inMemory then (c, Some(c.inMemory[look.meta.value]))
    else if look.hash.None? then (c, None)
    else (Cache(c.inMemory[look.meta.value := look.hash.value], true), look.hash)
  }

  function Save(hasPath: bool, c: Cache, disk: Disk, outcome: SaveOutcome): (Cache, Disk) {
    if !c.dirty || !hasPath || outcome.NoDirectory? then (c, disk)
    else
      (c.(dirty := false),
       match outcome
       case Saved => OnDisk(CACHE_VERSION, Printed(c.inMemory))
       case Torn => Malformed
       case _ => disk)
  }

  function Apply(hasPath: bool, w: World, op: Op): World {
    match op
    case Query(look) => w.(cache := Ask(w.cache, look).0)
    case Persist(outcome) =>
      var (c, d) := Save(hasPath, w.cache, w.disk, outcome);
      World(c, d)
    case Reopen(outcome, loaded) => World(Cache(loaded, false), Save(hasPath, w.cache, w.disk, outcome).1)
  }

  ghost predicate Possible(hasPath: bool, w: World, op: Op) {
    op.Reopen? ==>
      if hasPath then Loads(Save(hasPath, w.cache, w.disk, op.outcome).1, op.loaded) else op.loaded == map[]
  }

  function After(hasPath: bool, w: World, ops: seq<Op>): World {
    if ops == [] then w else Apply(hasPath, After(hasPath, w, ops[..|ops| - 1]), ops[|ops| - 1])
  }

  ghost predicate PossibleRun(hasPath: bool, w: World, ops: seq<Op>) {
    forall i :: 0 <= i < |ops| ==> Possible(hasPath, After(hasPath, w, ops[..i]), ops[i])
  }

  /** What is saved loads back exactly, whatever order the entries come in. */
  lemma LoadAfterSave(m: Entries, loaded: Entries)
    requires LoadsFrom(Printed(m), loaded)
    ensures loaded == m
  {
    hide ParseKeyStr, KeyStr, Printed;
    PrintedHolds(m);
    var entries := Printed(m);
    forall k | k in m
      ensures k in loaded
    {
      assert ParseKeyStr(KeyStr(k)) == Some(k);
    }
    forall k | k in loaded
      ensures k in m && loaded[k] == m[k]
    {
      var t :| t in entries && ParseKeyStr(t) == Some(k) && entries[t] == loaded[k];
      var l :| l in m && KeyStr(l) == t && ParseKeyStr(t) == Some(l) && entries[t] == m[l];
    }
  }

  /** The metadata determines the content: every hash that is taken for a key is the same. */
  ghost predicate KeyDetermines(op: Op, hash: CacheKey -> Bytes) {
    op.Query? && op.look.meta.Some? && op.look.hash.Some? ==> op.look.hash.value == hash(op.look.meta.value)
  }

  ghost predicate Sound(w: World, hash: CacheKey -> Bytes) {
    && (forall k <- w.cache.inMemory :: w.cache.inMemory[k] == hash(k))
    && (w.disk.OnDisk? && w.disk.version == 1 ==>
          forall t <- w.disk.entries :: ParseKeyStr(t).Some? ==> w.disk.entries[t] == hash(ParseKeyStr(t).value))
  }

  lemma SoundStep(hasPath: bool, w: World, op: Op, hash: CacheKey -> Bytes)
    requires Sound(w, hash) && Possible(hasPath, w, op) && KeyDetermines(op, hash)
    ensures Sound(Apply(hasPath, w, op), hash)
  {
    hide ParseKeyStr, KeyStr;
    if !op.Query? {
      SaveKeepsSound(hasPath, w, op.outcome, hash);
      hide Save, Printed;
    }
  }

  lemma SaveKeepsSound(hasPath: bool, w: World, outcome: SaveOutcome, hash: CacheKey -> Bytes)
    requires Sound(w, hash)
    ensures var (c, d) := Save(hasPath, w.cache, w.disk, outcome);
            Sound(World(c, d), hash)
  {
    hide ParseKeyStr, KeyStr;
    var m := w.cache.inMemory;
    PrintedHolds(m);
    hide Printed;
  }

  lemma {:induction false} SoundRun(hasPath: bool, w: World, ops: seq<Op>, hash: CacheKey -> Bytes)
    requires Sound(w, hash) && PossibleRun(hasPath, w, ops)
    requires forall op <- ops :: KeyDetermines(op, hash)
    ensures Sound(After(hasPath, w, ops), hash)
  {
    hide Sound, Apply, Possible, KeyDetermines;
    if ops != [] {
      var front := ops[..|ops| - 1];
      assert forall i :: 0 <= i < |front| ==> front[..i] == ops[..i];
      SoundRun(hasPath, w, front, hash);
      SoundStep(hasPath, After(hasPath, w, front), ops[|ops| - 1], hash);
    }
  }

  /** The cache cannot be noticed. After any run of hits, misses, saves that succeed or fail in any way,
      and reopenings, a query answers what hashing afresh would, wherever that has an answer; where the
      file can no longer be read it may still answer, and then rightly. */
  lemma CacheIsTransparent(hasPath: bool, disk: Disk, loaded: Entries, ops: seq<Op>, look: Look, hash: CacheKey -> Bytes)
    requires if hasPath then Loads(disk, loaded) else loaded == map[]
    requires Sound(World(Cache(map[], false), disk), hash)
    requires var w := World(Cache(loaded, false), disk);
             PossibleRun(hasPath, w, ops) && forall op <- ops :: KeyDetermines(op, hash)
    requires KeyDetermines(Query(look), hash)
    ensures var r := Ask(After(hasPath, World(Cache(loaded, false), disk), ops).cache, look).1;
            && (look.meta.Some? && look.hash.Some? ==> r == look.hash)
            && (r.Some? ==> look.meta.Some? && r.value == hash(look.meta.value))
  {
    hide ParseKeyStr, KeyStr, Apply, Possible;
    assert Sound(World(Cache(loaded, false), disk), hash);
    SoundRun(hasPath, World(Cache(loaded, false), disk), ops, hash);
  }

  /** The keys a load of this disk would find. */
  ghost predicate Holds(disk: Disk, k: CacheKey) {
    disk.OnDisk? && disk.version == 1 && exists t <- disk.entries :: ParseKeyStr(t) == Some(k)
  }

  /** Nothing in memory that is not also on the disk or marked for saving. */
  ghost predicate Kept(w: World) {
    w.cache.dirty || forall k <- w.cache.inMemory :: Holds(w.disk, k)
  }

  /** With a path and saves that succeed no key is ever forgotten: a file is hashed once per key, over
      any number of sessions. */
  lemma KeyStays(w: World, op: Op, k: CacheKey)
    requires Kept(w) && Possible(true, w, op)
    requires !op.Query? ==> op.outcome.Saved?
    ensures Kept(Apply(true, w, op))
    ensures k in w.cache.inMemory ==> k in Apply(true, w, op).cache.inMemory
  {
    hide ParseKeyStr, KeyStr;
    if !op.Query? {
      SavedHolds(w);
      var d := Save(true, w.cache, w.disk, Saved).1;
      hide Save;
      if op.Reopen? {
        forall l | Holds(d, l)
          ensures l in op.loaded
        {
          var t :| t in d.entries && ParseKeyStr(t) == Some(l);
        }
      }
    }
  }

  lemma SavedHolds(w: World)
    requires Kept(w)
    ensures forall k <- w.cache.inMemory :: Holds(Save(true, w.cache, w.disk, Saved).1, k)
    ensures !Save(true, w.cache, w.disk, Saved).0.dirty
  {
    hide ParseKeyStr, KeyStr;
    PrintedHolds(w.cache.inMemory);
    hide Printed;
  }

  lemma {:induction false} KeysStay(w: World, ops: seq<Op>, k: CacheKey)
    requires Kept(w) && PossibleRun(true, w, ops)
    requires forall op <- ops :: !op.Query? ==> op.outcome.Saved?
    ensures Kept(After(true, w, ops))
    ensures k in w.cache.inMemory ==> k in After(true, w, ops).cache.inMemory
  {
    hide Kept, Apply, Possible;
    if ops != [] {
      var front := ops[..|ops| - 1];
      assert forall i :: 0 <= i < |front| ==> front[..i] == ops[..i];
      KeysStay(w, front, k);
      KeyStays(After(true, w, front), ops[|ops| - 1], k);
    }
  }

  /** Why the hypothesis is needed: the key holds whole seconds, so a file rewritten within one second at
      the same length answers with its old fingerprint. */
  lemma RewriteWithinASecondIsStale(c: Cache, key: CacheKey, before: Bytes, after: Bytes)
    requires key !in c.inMemory && before != after
    ensures var (c', first) := Ask(c, Look(Some(key), Some(before)));
            first == Some(before) && Ask(c', Look(Some(key), Some(after))).1 == Some(before)
  {
  }

  /** What each way of saving leaves. Only a missing directory keeps the mark that there is something to save: after a file
      that cannot be opened, or that is torn while it is written, the mark is gone as after a good save. */
  lemma SaveEnds(hasPath: bool, c: Cache, disk: Disk, outcome: SaveOutcome)
    ensures var (d, after) := Save(hasPath, c, disk, outcome);
            && d.inMemory == c.inMemory
            && (d.dirty <==> c.dirty && (!hasPath || outcome.NoDirectory?))
            && (if !c.dirty || !hasPath then after == disk
                else match outcome
                  case NoDirectory => after == disk
                  case NotOpened => after == disk
                  case Torn => after == Malformed
                  case Saved =>
                    && after.OnDisk? && after.version == 1
                    && (forall k <- c.inMemory :: KeyStr(k) in after.entries && after.entries[KeyStr(k)] == c.inMemory[k])
                    && (forall t <- after.entries :: exists k <- c.inMemory :: KeyStr(k) == t))
  {
    hide KeyStr, ParseKeyStr;
    KeysDistinct();
  }

  /** So a torn save is not made good: saving again writes nothing, and the next session starts with an empty cache. */
  lemma TornSaveForgets(c: Cache, disk: Disk, again: SaveOutcome, loaded: Entries)
    requires c.dirty
    ensures var (d, torn) := Save(true, c, disk, Torn);
            && Save(true, d, torn, again) == (d, torn)
            && (Loads(torn, loaded) ==> loaded == map[])
  {
  }
}
