/** The bounded queue that every history of the runtime is kept in: push at the back, drop from the
    front while over the cap. */
module Rings {
  /** The last `n` elements, or all of them. */
  function Suffix<T>(s: seq<T>, n: nat): (r: seq<T>)
    ensures |r| == if |s| <= n then |s| else n
  {
    if |s| <= n then s else s[|s| - n..]
  }

  /** `push_back`, then `pop_front` while over the cap. */
  function PushBounded<T>(s: seq<T>, x: T, cap: nat): seq<T> {
    Suffix(s + [x], cap)
  }

  /** `while len > cap { pop_front }`. */
  method KeepNewest<T>(ring: seq<T>, cap: nat) returns (r: seq<T>)
    ensures r == Suffix(ring, cap)
  {
    r := ring;
    while |r| > cap
      invariant Suffix(r, cap) == Suffix(ring, cap)
    {
      r := r[1..];
    }
  }

  /** `PushBounded` for each element in turn. */
  function PushAll<T>(ring: seq<T>, items: seq<T>, cap: nat): seq<T> {
    if items == [] then ring
    else PushBounded(PushAll(ring, items[..|items| - 1], cap), items[|items| - 1], cap)
  }

  /** A bounded queue agrees with the unbounded log cut to its last `cap` entries. */
  lemma {:induction false} PushAllKeepsNewest<T>(ring: seq<T>, items: seq<T>, cap: nat)
    requires |ring| <= cap
    ensures PushAll(ring, items, cap) == Suffix(ring + items, cap)
  {
    if items == [] {
      assert ring + items == ring;
    } else {
      var front, last := items[..|items| - 1], items[|items| - 1];
      PushAllKeepsNewest(ring, front, cap);
      assert ring + items == ring + front + [last];
    }
  }

  /** What is kept is the newest, in order. */
  lemma SuffixIsNewest<T>(s: seq<T>, n: nat)
    ensures forall i :: 0 <= i < |Suffix(s, n)| ==> Suffix(s, n)[i] == s[|s| - |Suffix(s, n)| + i]
    ensures |s| <= n ==> Suffix(s, n) == s
  {
  }
}
