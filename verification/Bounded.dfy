/** Buffers of bounded size that drop their oldest element to take a new one. */
module Bounded {

  /** The newest `n` elements. */
  function Newest<T>(s: seq<T>, n: nat): seq<T> {
    if |s| <= n then s else s[|s| - n..]
  }

  lemma {:induction false} NewestShort<T>(s: seq<T>, n: nat)
    requires |s| <= n
    ensures Newest(s, n) == s
  {
  }

  lemma {:induction false} NewestIs<T>(s: seq<T>, n: nat)
    ensures Newest(s, n) == s[if |s| <= n then 0 else |s| - n..]
  {
  }

  /** Trimming before an append that is trimmed again changes nothing. */
  lemma {:induction false} NewestAppend<T>(a: seq<T>, b: seq<T>, n: nat)
    ensures Newest(Newest(a, n) + b, n) == Newest(a + b, n)
  {
  }
}
