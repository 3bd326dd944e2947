/** Facts about sequences that several modules lean on. */
module Sequences {
  /** Concatenation is associative; stated once so that loop proofs need not rediscover it. */
  lemma AppendAssociative<T>(a: seq<T>, b: seq<T>, c: seq<T>)
    ensures a + (b + c) == (a + b) + c
  {
  }

  /** A suffix is known pointwise: `s` from `k` on holds `t`. */
  lemma SuffixIs<T>(s: seq<T>, k: nat, t: seq<T>)
    requires k + |t| == |s|
    requires forall p :: 0 <= p < |t| ==> s[k + p] == t[p]
    ensures s[k..] == t
  {
    forall p | 0 <= p < |t|
      ensures s[k..][p] == t[p]
    {
      assert s[k..][p] == s[k + p];
    }
  }
}
