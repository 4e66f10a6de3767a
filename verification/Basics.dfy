/** Small vocabulary shared by every part of the model. */
module Basics {

  datatype Option<+T> = None | Some(value: T) {
    function Map<U>(f: T -> U): Option<U> {
      match this
      case None => None
      case Some(v) => Some(f(v))
    }

    function GetOr(default: T): T {
      match this
      case None => default
      case Some(v) => v
    }
  }

  /** One octet. */
  type Byte = n: nat | n < 256

  /** The source's uint32_t. */
  const U32_LIMIT := 0x1_0000_0000

  type U32 = n: nat | n < U32_LIMIT

  function Min(a: int, b: int): (r: int)
    ensures r <= a && r <= b && (r == a || r == b)
  {
    if a <= b then a else b
  }

  function Pow2(k: nat): (p: nat)
    ensures p >= 1
  {
    if k == 0 then 1 else 2 * Pow2(k - 1)
  }

  function Last<T>(s: seq<T>): T
    requires |s| > 0
  {
    s[|s| - 1]
  }

  /** No element is smaller than an earlier one. */
  ghost predicate NonDecreasing(s: seq<int>) {
    forall i, j :: 0 <= i < j < |s| ==> s[i] <= s[j]
  }

  /** No two neighbours are equal. */
  ghost predicate Alternates(s: seq<bool>) {
    forall i :: 0 < i < |s| ==> s[i] != s[i - 1]
  }

  /** Related one by one, in order. */
  ghost predicate Pairwise<A, B>(related: (A, B) -> bool, a: seq<A>, b: seq<B>) {
    |a| == |b| && forall k :: 0 <= k < |a| ==> related(a[k], b[k])
  }

  lemma PairwiseConcat<A, B>(related: (A, B) -> bool, a: seq<A>, b: seq<B>, a': seq<A>, b': seq<B>)
    requires Pairwise(related, a, b) && Pairwise(related, a', b')
    ensures Pairwise(related, a + a', b + b')
  {}
}
