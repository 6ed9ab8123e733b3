/** What several parts say of sequences. */
module Sequences {
  ghost predicate Distinct<T>(s: seq<T>) {
    forall i, j :: 0 <= i < j < |s| ==> s[i] != s[j]
  }

  /** The last `n` elements, or all if there are fewer. */
  function LastN<T>(s: seq<T>, n: nat): (r: seq<T>)
    ensures |r| == if |s| <= n then |s| else n
  {
    if |s| <= n then s else s[|s| - n..]
  }

  /** Indeed: element by element, counted from the end. */
  lemma LastNAt<T>(s: seq<T>, n: nat, k: nat)
    requires k < |LastN(s, n)|
    ensures LastN(s, n)[|LastN(s, n)| - 1 - k] == s[|s| - 1 - k]
  {
  }
}
