/** Recency lists: keys without repetition, least recently used first.
    Both the state store and the cache link keep their entries in such a list
    and cut it from the front, so the laws of "least recently used" live here. */
module Recency {
  import opened Sequences

  /** Keys are only ever compared for equality, so a number stands for each. */
  type Key = int

  function Keys(s: seq<Key>): set<Key> {
    set k | k in s
  }

  /** The list with every occurrence of `k` removed. */
  function Without(s: seq<Key>, k: Key): (r: seq<Key>)
    ensures k !in r
    ensures forall x :: x in r <==> x in s && x != k
    ensures |r| <= |s|
  {
    if s == [] then []
    else
      var rest := Without(s[1..], k);
      assert s == [s[0]] + s[1..];
      if s[0] == k then rest else [s[0]] + rest
  }

  /** A use of `k`: it becomes the most recent key. */
  function Touch(s: seq<Key>, k: Key): seq<Key> {
    Without(s, k) + [k]
  }

  /** The distinct keys of a history of uses, in the order of their last use. */
  function ByLastUse(history: seq<Key>): seq<Key> {
    if history == [] then []
    else Touch(ByLastUse(history[..|history| - 1]), history[|history| - 1])
  }

  lemma {:induction false} WithoutAppend(a: seq<Key>, b: seq<Key>, k: Key)
    ensures Without(a + b, k) == Without(a, k) + Without(b, k)
  {
    if a == [] {
      assert a + b == b;
    } else {
      assert (a + b)[1..] == a[1..] + b;
      WithoutAppend(a[1..], b, k);
    }
  }

  lemma {:induction false} WithoutAbsent(s: seq<Key>, k: Key)
    requires k !in s
    ensures Without(s, k) == s
  {
    if s != [] {
      WithoutAbsent(s[1..], k);
    }
  }

  lemma {:induction false} WithoutDistinct(s: seq<Key>, k: Key)
    requires Distinct(s)
    ensures Distinct(Without(s, k))
    ensures |Without(s, k)| == if k in s then |s| - 1 else |s|
  {
    if s != [] {
      WithoutDistinct(s[1..], k);
      assert Distinct(s[1..]);
      assert Without(s[1..], k) <= Without(s[1..], k);
      if s[0] == k {
        assert k !in s[1..];
        WithoutAbsent(s[1..], k);
      } else {
        assert s[0] !in Without(s[1..], k);
      }
    }
  }

  lemma TouchDistinct(s: seq<Key>, k: Key)
    requires Distinct(s)
    ensures Distinct(Touch(s, k))
    ensures Keys(Touch(s, k)) == Keys(s) + {k}
    ensures |Touch(s, k)| == if k in s then |s| else |s| + 1
  {
    WithoutDistinct(s, k);
    TouchMembers(s, k);
  }

  lemma {:induction false} ByLastUseDistinct(history: seq<Key>)
    ensures Distinct(ByLastUse(history))
    ensures Keys(ByLastUse(history)) == Keys(history)
  {
    if history != [] {
      var h, k := history[..|history| - 1], history[|history| - 1];
      ByLastUseDistinct(h);
      TouchDistinct(ByLastUse(h), k);
      assert history == h + [k];
      assert Keys(history) == Keys(h) + {k};
    }
  }

  lemma TouchMembers(s: seq<Key>, k: Key)
    ensures forall x :: x in Touch(s, k) <==> x == k || x in s
  {
  }

  lemma LastNMembers(s: seq<Key>, n: nat)
    requires s != [] && n >= 1
    ensures s[|s| - 1] in LastN(s, n)
    ensures forall x :: x in LastN(s, n) ==> x in s
  {
  }

  lemma WithoutOldest(order: seq<Key>)
    requires Distinct(order) && order != []
    ensures Distinct(order[1..])
    ensures forall k :: k in order[1..] <==> k in order && k != order[0]
  {
  }

  lemma LastNOfConcat(a: seq<Key>, b: seq<Key>, n: nat)
    requires |b| == n
    ensures LastN(a + b, n) == b
  {
  }

  /** Cutting to the last `n` keys before or after a use gives the same list:
      a bounded store needs no memory of the keys it dropped. */
  lemma TouchCut(s: seq<Key>, k: Key, n: nat)
    requires Distinct(s) && n >= 1
    ensures LastN(Touch(LastN(s, n), k), n) == LastN(Touch(s, k), n)
  {
    if |s| > n {
      TouchCutParts(s[..|s| - n], s[|s| - n..], k, n);
      assert s == s[..|s| - n] + s[|s| - n..];
    }
  }

  lemma TouchCutParts(a: seq<Key>, b: seq<Key>, k: Key, n: nat)
    requires Distinct(a + b) && |b| == n >= 1
    ensures LastN(Touch(b, k), n) == LastN(Touch(a + b, k), n)
  {
    WithoutAppend(a, b, k);
    if k in b {
      KeptPart(a, b, k, n);
    } else {
      WithoutAbsent(b, k);
      var tail := b[1..] + [k];
      assert Touch(b, k) == [b[0]] + tail;
      assert Touch(a + b, k) == Without(a, k) + [b[0]] + tail;
      LastNOfConcat([b[0]], tail, n);
      LastNOfConcat(Without(a, k) + [b[0]], tail, n);
    }
  }

  lemma KeptPart(a: seq<Key>, b: seq<Key>, k: Key, n: nat)
    requires Distinct(a + b) && |b| == n >= 1 && k in b
    ensures LastN(Touch(b, k), n) == LastN(Touch(a + b, k), n)
  {
    assert b == (a + b)[|a|..];
    WithoutAppend(a, b, k);
    WithoutDistinct(b, k);
    assert k !in a by {
      assert forall i :: 0 <= i < |a| ==> (a + b)[i] == a[i];
    }
    WithoutAbsent(a, k);
    assert Touch(a + b, k) == a + Touch(b, k);
    LastNOfConcat(a, Touch(b, k), n);
  }

  /** The last use of `k` lies within the last `n` distinct keys used. */
  ghost predicate UsedWithin(history: seq<Key>, k: Key, n: nat) {
    exists i :: IsLastUse(history, k, i) && |Keys(history[i + 1..])| < n
  }

  ghost predicate IsLastUse(history: seq<Key>, k: Key, i: nat) {
    i < |history| && history[i] == k && k !in history[i + 1..]
  }

  /** What the bounded list means: `k` is kept exactly when fewer than `n`
      other keys were used since the last use of `k`. */
  lemma KeptIff(history: seq<Key>, k: Key, n: nat)
    requires n >= 1
    ensures k in LastN(ByLastUse(history), n) <==> UsedWithin(history, k, n)
  {
    ByLastUseDistinct(history);
    if k in history {
      var i := LastUse(history, k);
      var at := Suffix(history, k, i);
      var s := ByLastUse(history);
      DistinctCount(s[at + 1..]);
      KeptAt(s, at, n);
      assert forall j :: IsLastUse(history, k, j) ==> j == i;
    } else {
      assert k !in Keys(ByLastUse(history));
    }
  }

  /** In a list without repetition the element at `at` is among the last `n`
      exactly when fewer than `n` elements follow it. */
  lemma KeptAt(s: seq<Key>, at: nat, n: nat)
    requires Distinct(s) && at < |s|
    ensures s[at] in LastN(s, n) <==> |s| - at - 1 < n
  {
  }

  lemma LastUse(history: seq<Key>, k: Key) returns (i: nat)
    requires k in history
    ensures IsLastUse(history, k, i)
  {
    i := |history| - 1;
    while history[i] != k
      invariant i < |history| && k !in history[i + 1..]
      decreases i
    {
      assert history[i..] == [history[i]] + history[i + 1..];
      assert history == history[..i] + history[i..];
      i := i - 1;
    }
  }

  /** The keys after `k` in the list are exactly the keys used after `k`. */
  lemma {:induction false} Suffix(history: seq<Key>, k: Key, i: nat) returns (at: nat)
    requires IsLastUse(history, k, i)
    ensures at < |ByLastUse(history)| && ByLastUse(history)[at] == k
    ensures Keys(ByLastUse(history)[at + 1..]) == Keys(history[i + 1..])
    decreases |history|
  {
    var h, last := history[..|history| - 1], history[|history| - 1];
    ByLastUseDistinct(h);
    if i == |history| - 1 {
      at := |Without(ByLastUse(h), k)|;
      assert ByLastUse(history)[at + 1..] == [];
    } else {
      assert h[i + 1..] + [last] == history[i + 1..];
      assert last in history[i + 1..];
      assert k !in h[i + 1..];
      var at' := Suffix(h, k, i);
      var s := ByLastUse(h);
      var a, b := s[..at'], s[at' + 1..];
      assert s == a + [k] + b;
      TouchSplit(a, k, b, last);
      at := |Without(a, last)|;
      assert ByLastUse(history)[at + 1..] == Touch(b, last);
      assert Keys(history[i + 1..]) == Keys(h[i + 1..]) + {last};
    }
  }

  lemma TouchSplit(a: seq<Key>, k: Key, b: seq<Key>, last: Key)
    requires last != k
    ensures Touch(a + [k] + b, last) == Without(a, last) + [k] + Touch(b, last)
    ensures Keys(Touch(b, last)) == Keys(b) + {last}
  {
    WithoutAppend(a + [k], b, last);
    WithoutAppend(a, [k], last);
    assert Without([k], last) == [k];
    TouchMembers(b, last);
  }

  lemma {:induction false} DistinctCount(s: seq<Key>)
    requires Distinct(s)
    ensures |Keys(s)| == |s|
  {
    if s != [] {
      DistinctCount(s[1..]);
      assert Keys(s) == Keys(s[1..]) + {s[0]};
      assert s[0] !in Keys(s[1..]);
    }
  }

  // ----------------------------------------------- lists with other removals

  /** Where `k` was last used, or -1. */
  function LastIndex(history: seq<Key>, k: Key): (r: int)
    ensures -1 <= r < |history|
  {
    if history == [] then -1
    else if history[|history| - 1] == k then |history| - 1
    else LastIndex(history[..|history| - 1], k)
  }

  /** Every listed key was used, and each one earlier than those after it. This
      is what is left of recency once keys may also leave from the middle. */
  ghost predicate InUseOrder(s: seq<Key>, history: seq<Key>) {
    && (forall i :: 0 <= i < |s| ==> LastIndex(history, s[i]) >= 0)
    && (forall i, j :: 0 <= i < j < |s| ==> LastIndex(history, s[i]) < LastIndex(history, s[j]))
  }

  lemma {:induction false} WithoutInUseOrder(s: seq<Key>, k: Key, history: seq<Key>)
    requires InUseOrder(s, history)
    ensures InUseOrder(Without(s, k), history)
  {
    if s != [] {
      var rest := s[1..];
      assert InUseOrder(rest, history);
      WithoutInUseOrder(rest, k, history);
      var kept := Without(rest, k);
      assert Without(s, k) == if s[0] == k then kept else [s[0]] + kept;
      forall j | 0 <= j < |kept| ensures LastIndex(history, s[0]) < LastIndex(history, kept[j]) {
        assert kept[j] in rest;
      }
    }
  }

  lemma LastIndexAppend(history: seq<Key>, k: Key, x: Key)
    ensures LastIndex(history + [k], x) == if x == k then |history| else LastIndex(history, x)
  {
  }

  lemma TouchInUseOrder(s: seq<Key>, k: Key, history: seq<Key>)
    requires InUseOrder(s, history)
    ensures InUseOrder(Touch(s, k), history + [k])
  {
    WithoutInUseOrder(s, k, history);
    var kept := Without(s, k);
    forall x ensures LastIndex(history + [k], x) == if x == k then |history| else LastIndex(history, x) {
      LastIndexAppend(history, k, x);
    }
    forall i | 0 <= i < |kept| ensures LastIndex(history + [k], kept[i]) == LastIndex(history, kept[i]) {
      assert kept[i] in kept;
    }
  }

  lemma LastNInUseOrder(s: seq<Key>, n: nat, history: seq<Key>)
    requires InUseOrder(s, history)
    ensures InUseOrder(LastN(s, n), history)
  {
  }

  /** Cutting the list takes keys that were used before every key that stays. */
  lemma CutTakesOldest(s: seq<Key>, key: Key, n: nat, history: seq<Key>, gone: Key, kept: Key)
    requires InUseOrder(s, history) && Distinct(s + [key])
    requires gone in s && gone !in LastN(s + [key], n)
    requires kept in s && kept in LastN(s + [key], n)
    ensures |s| >= n && LastIndex(history, gone) < LastIndex(history, kept)
  {
    var i :| 0 <= i < |s| && s[i] == gone;
    var j :| 0 <= j < |s| && s[j] == kept;
    assert (s + [key])[i] == gone && (s + [key])[j] == kept;
    KeptAt(s + [key], i, n);
    KeptAt(s + [key], j, n);
  }
}
