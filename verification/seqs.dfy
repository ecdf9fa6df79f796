/** Sequence operations the components share: `Array.prototype.filter`,
    `Array.prototype.indexOf`, `Array.prototype.reverse` and the notion of
    an order-preserving subsequence used to state what a filter returns. */
module Seqs {

  /** `sub` is obtained from `s` by dropping elements and keeping the rest in order. */
  predicate IsSubsequence<T(==)>(sub: seq<T>, s: seq<T>)
    decreases |s|
  {
    if |sub| == 0 then true
    else if |s| == 0 then false
    else if sub[0] == s[0] then IsSubsequence(sub[1..], s[1..])
    else IsSubsequence(sub, s[1..])
  }

  /** No value occurs twice in `s`. */
  predicate Distinct<T(==)>(s: seq<T>) {
    forall i, j :: 0 <= i < j < |s| ==> s[i] != s[j]
  }

  /** No two elements of `s` share a key. */
  predicate DistinctBy<T, K(==)>(s: seq<T>, key: T -> K) {
    forall i, j :: 0 <= i < j < |s| ==> key(s[i]) != key(s[j])
  }

  /** Every element of a subsequence is an element of the whole. */
  lemma {:induction false} SubsequenceMembers<T>(sub: seq<T>, s: seq<T>)
    requires IsSubsequence(sub, s)
    ensures forall x :: x in sub ==> x in s
    decreases |s|
  {
    if |sub| == 0 {
    } else if sub[0] == s[0] {
      SubsequenceMembers(sub[1..], s[1..]);
      forall x | x in sub
        ensures x in s
      {
        if x != sub[0] {
          assert x in sub[1..];
        }
      }
    } else {
      SubsequenceMembers(sub, s[1..]);
    }
  }

  /** Dropping elements cannot make two keys collide. */
  lemma {:induction false} SubsequenceKeepsDistinctBy<T, K>(sub: seq<T>, s: seq<T>, key: T -> K)
    requires IsSubsequence(sub, s)
    requires DistinctBy(s, key)
    ensures DistinctBy(sub, key)
    decreases |s|
  {
    if |sub| == 0 {
    } else if sub[0] == s[0] {
      SubsequenceKeepsDistinctBy(sub[1..], s[1..], key);
      SubsequenceMembers(sub[1..], s[1..]);
      forall i, j | 0 <= i < j < |sub|
        ensures key(sub[i]) != key(sub[j])
      {
        if i == 0 {
          assert sub[j] in s[1..] by {
            assert sub[j] == sub[1..][j - 1];
          }
          var m :| 0 <= m < |s[1..]| && s[1..][m] == sub[j];
          assert s[m + 1] == sub[j];
        } else {
          assert sub[i] == sub[1..][i - 1] && sub[j] == sub[1..][j - 1];
        }
      }
    } else {
      SubsequenceKeepsDistinctBy(sub, s[1..], key);
    }
  }

  /** No element at a position in [lo, hi) occurs again at a later position in [lo2, hi2). */
  predicate DistinctAcross<T(==)>(s: seq<T>, lo: int, hi: int, lo2: int, hi2: int) {
    forall i, j :: lo <= i < hi && lo2 <= j < hi2 && 0 <= i < j < |s| ==> s[i] != s[j]
  }

  /** Distinctness assembled from the three thirds [0, a), [a, b), [b, |s|)
      and the pairs between them. */
  lemma DistinctFromThirds<T>(s: seq<T>, a: int, b: int)
    requires 0 <= a <= b <= |s|
    requires DistinctAcross(s, 0, a, 0, a) && DistinctAcross(s, a, b, a, b)
    requires DistinctAcross(s, b, |s|, b, |s|)
    requires DistinctAcross(s, 0, a, a, b) && DistinctAcross(s, 0, a, b, |s|)
    requires DistinctAcross(s, a, b, b, |s|)
    ensures Distinct(s)
  {
  }

  /** `Array.prototype.filter`: the elements of `s` satisfying `p`, in their original order. */
  function Filter<T(==,!new)>(s: seq<T>, p: T -> bool): (r: seq<T>)
    ensures |r| <= |s|
    ensures forall i :: 0 <= i < |r| ==> p(r[i])
    ensures forall x :: x in r <==> x in s && p(x)
    ensures forall x :: multiset(r)[x] == if p(x) then multiset(s)[x] else 0
    ensures IsSubsequence(r, s)
  {
    if |s| == 0 then []
    else
      var rest := Filter(s[1..], p);
      assert s == [s[0]] + s[1..];
      assert multiset(s) == multiset{s[0]} + multiset(s[1..]);
      if p(s[0]) then
        assert multiset([s[0]] + rest) == multiset{s[0]} + multiset(rest);
        [s[0]] + rest
      else
        rest
  }

  /** A filter whose predicate holds everywhere keeps the whole sequence. */
  lemma {:induction false} FilterKeepsAll<T(!new)>(s: seq<T>, p: T -> bool)
    requires forall i :: 0 <= i < |s| ==> p(s[i])
    ensures Filter(s, p) == s
  {
    if |s| > 0 {
      FilterKeepsAll(s[1..], p);
    }
  }

  /** A filter whose predicate holds nowhere keeps nothing. */
  lemma FilterKeepsNone<T(!new)>(s: seq<T>, p: T -> bool)
    requires forall i :: 0 <= i < |s| ==> !p(s[i])
    ensures Filter(s, p) == []
  {
  }

  /** Cutting a subsequence short leaves a subsequence. */
  lemma {:induction false} PrefixOfSubsequence<T>(sub: seq<T>, s: seq<T>, k: nat)
    requires IsSubsequence(sub, s)
    requires k <= |sub|
    ensures IsSubsequence(sub[..k], s)
    decreases |s|
  {
    if k == 0 || |sub| == 0 {
    } else if sub[0] == s[0] {
      PrefixOfSubsequence(sub[1..], s[1..], k - 1);
      assert sub[..k][1..] == sub[1..][..k - 1];
    } else {
      PrefixOfSubsequence(sub, s[1..], k);
    }
  }

  /** `Array.prototype.reverse`, as a value. */
  function Reverse<T>(s: seq<T>): (r: seq<T>)
    ensures |r| == |s|
    ensures forall i :: 0 <= i < |s| ==> r[i] == s[|s| - 1 - i]
  {
    if |s| == 0 then [] else Reverse(s[1..]) + [s[0]]
  }

  /** Reversing twice gives back the original sequence. */
  lemma ReverseInvolution<T>(s: seq<T>)
    ensures Reverse(Reverse(s)) == s
  {
  }

  /** `Array.prototype.indexOf`: the position of the first occurrence of `x`, or -1. */
  function IndexOf<T(==)>(s: seq<T>, x: T): (i: int)
    ensures -1 <= i < |s|
    ensures i == -1 <==> x !in s
    ensures 0 <= i ==> s[i] == x && x !in s[..i]
  {
    if |s| == 0 then -1
    else if s[0] == x then 0
    else
      var j := IndexOf(s[1..], x);
      assert s[1..][..(if j < 0 then 0 else j)] == s[1..(if j < 0 then 1 else j + 1)];
      if j == -1 then -1 else j + 1
  }

  /** In a sequence without duplicates, `IndexOf` inverts indexing: it is a
      bijection between the elements and the positions 0 .. |s| - 1. */
  lemma IndexOfInvertsIndexing<T>(s: seq<T>, k: int)
    requires Distinct(s)
    requires 0 <= k < |s|
    ensures IndexOf(s, s[k]) == k
  {
  }
}
