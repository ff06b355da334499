/** Subsequences: what filtering and truncating a list preserve. */
module Sequences {

  /** `a` can be obtained from `b` by deleting elements. */
  ghost predicate IsSubsequence<T>(a: seq<T>, b: seq<T>)
  {
    if a == [] then true
    else if b == [] then false
    else (a[0] == b[0] && IsSubsequence(a[1..], b[1..])) || IsSubsequence(a, b[1..])
  }

  /** A prefix of a subsequence is a subsequence. */
  lemma {:induction false} PrefixIsSubsequence<T>(a: seq<T>, b: seq<T>, k: nat)
    requires k <= |a|
    requires IsSubsequence(a, b)
    ensures IsSubsequence(a[..k], b)
    decreases |b|
  {
    if k == 0 || a == [] {
      assert a[..k] == [];
    } else {
      assert b != [];
      if a[0] == b[0] && IsSubsequence(a[1..], b[1..]) {
        PrefixIsSubsequence(a[1..], b[1..], k - 1);
        assert a[..k][0] == b[0] && a[..k][1..] == a[1..][..k - 1];
      } else {
        PrefixIsSubsequence(a, b[1..], k);
      }
    }
  }

  /** Appending the same element to both keeps a subsequence. */
  lemma {:induction false} SubsequenceAppend<T>(a: seq<T>, b: seq<T>, x: T)
    requires IsSubsequence(a, b)
    ensures IsSubsequence(a + [x], b + [x])
    decreases |b|
  {
    if a == [] {
      assert ([] + [x])[1..] == [] && (b + [x])[..] == b + [x];
      if b == [] {
        assert IsSubsequence([], [x][1..]);
      } else {
        SubsequenceAppend(a, b[1..], x);
        assert (b + [x])[1..] == b[1..] + [x];
      }
    } else {
      assert b != [];
      assert (a + [x])[0] == a[0] && (a + [x])[1..] == a[1..] + [x];
      assert (b + [x])[0] == b[0] && (b + [x])[1..] == b[1..] + [x];
      if a[0] == b[0] && IsSubsequence(a[1..], b[1..]) {
        SubsequenceAppend(a[1..], b[1..], x);
      } else {
        SubsequenceAppend(a, b[1..], x);
      }
    }
  }

  /** Appending to the longer sequence alone keeps a subsequence. */
  lemma {:induction false} SubsequenceExtend<T>(a: seq<T>, b: seq<T>, x: T)
    requires IsSubsequence(a, b)
    ensures IsSubsequence(a, b + [x])
    decreases |b|
  {
    if a != [] {
      assert b != [];
      assert (b + [x])[0] == b[0] && (b + [x])[1..] == b[1..] + [x];
      if a[0] == b[0] && IsSubsequence(a[1..], b[1..]) {
        SubsequenceExtend(a[1..], b[1..], x);
      } else {
        SubsequenceExtend(a, b[1..], x);
      }
    }
  }

  /** No element occurs twice. */
  predicate Distinct<T(==)>(s: seq<T>)
  {
    forall i, j :: 0 <= i < j < |s| ==> s[i] != s[j]
  }
}
