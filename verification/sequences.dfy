/** Facts about sequences shared by the markup scanner and the stores. */
module Sequences {
  /** `a` is obtained from `b` by deleting elements, keeping the order of
      the rest. */
  predicate IsSubsequence<T(==)>(a: seq<T>, b: seq<T>)
    decreases |b|
  {
    a == [] ||
    (b != [] && ((a[0] == b[0] && IsSubsequence(a[1..], b[1..])) || IsSubsequence(a, b[1..])))
  }

  lemma {:induction false} SubsequenceOfSuffix<T>(a: seq<T>, b: seq<T>, m: nat)
    requires m <= |b| && IsSubsequence(a, b[m..])
    ensures IsSubsequence(a, b)
  {
    if m > 0 {
      assert b[1..][m - 1..] == b[m..];
      SubsequenceOfSuffix(a, b[1..], m - 1);
    }
  }

  lemma {:induction false} SubsequenceNotLonger<T>(a: seq<T>, b: seq<T>)
    requires IsSubsequence(a, b)
    ensures |a| <= |b|
  {
    if a != [] {
      if a[0] == b[0] && IsSubsequence(a[1..], b[1..]) {
        SubsequenceNotLonger(a[1..], b[1..]);
      } else {
        SubsequenceNotLonger(a, b[1..]);
      }
    }
  }

  /** A non-empty sequence is its first element followed by the rest, also
      in front of a further sequence. */
  lemma ConsAppend<T>(a: seq<T>, r: seq<T>)
    requires a != []
    ensures [a[0]] + (a[1..] + r) == a + r
  {
    assert a == [a[0]] + a[1..];
  }

  /** An element missing from a sequence is missing from its tail. */
  lemma NotInTail<T>(x: T, a: seq<T>)
    requires a != [] && x !in a
    ensures x !in a[1..]
  {
    assert forall y :: y in a[1..] ==> y in a;
  }
}
