/**
 * Order-preserving selection over sequences, shared by the filters of the
 * model (selected serialisable properties, modified property names).
 */
module Sequences {
  /** `r` keeps some of the elements of `s`, in their order. */
  predicate IsSubsequence<T(==)>(r: seq<T>, s: seq<T>)
    decreases |s|
  {
    if r == [] then true
    else if s == [] then false
    else if r[0] == s[0] then IsSubsequence(r[1..], s[1..])
    else IsSubsequence(r, s[1..])
  }

  /** Skipping one more element of `s` keeps `r` a subsequence. */
  lemma {:induction false} DropFirstSubsequence<T>(r: seq<T>, s: seq<T>)
    requires s != [] && IsSubsequence(r, s[1..])
    ensures IsSubsequence(r, s)
    decreases |s|, 0
  {
    if r != [] && r[0] == s[0] {
      if |s| > 1 {
        SubsequenceTail(r, s[1..]);
      }
    }
  }

  /** Dropping the first kept element keeps a subsequence. */
  lemma {:induction false} SubsequenceTail<T>(r: seq<T>, s: seq<T>)
    requires r != [] && IsSubsequence(r, s)
    ensures IsSubsequence(r[1..], s)
    decreases |s|, 1
  {
    if s != [] {
      if r[0] == s[0] {
        if r[1..] != [] {
          SubsequenceTail(r[1..], s[1..]);
          DropFirstSubsequence(r[1..], s);
        }
      } else {
        SubsequenceTail(r, s[1..]);
        if r[1..] != [] {
          DropFirstSubsequence(r[1..], s);
        }
      }
    }
  }

  /** A subsequence is made of elements of the sequence. */
  lemma {:induction false} SubsequenceElements<T>(r: seq<T>, s: seq<T>)
    requires IsSubsequence(r, s)
    ensures forall x :: x in r ==> x in s
    decreases |s|
  {
    if r != [] && s != [] {
      if r[0] == s[0] {
        SubsequenceElements(r[1..], s[1..]);
        assert forall x :: x in r ==> x == r[0] || x in r[1..];
      } else {
        SubsequenceElements(r, s[1..]);
      }
    }
  }

  /** Two sequences with the same first three elements. */
  lemma FirstThree<T>(a: seq<T>, b: seq<T>)
    requires |a| >= 3 && |b| >= 3 && a[..3] == b[..3]
    ensures a[0] == b[0] && a[1] == b[1] && a[2] == b[2]
  {
    assert a[0] == a[..3][0] && a[1] == a[..3][1] && a[2] == a[..3][2];
  }
}
