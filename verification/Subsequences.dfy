/** What is left of a sequence when elements are left out. */
module Subsequences {

  ghost predicate IsSubsequence<T>(a: seq<T>, b: seq<T>)
    decreases |b|
  {
    if a == [] then true
    else if b == [] then false
    else
      || IsSubsequence(a, b[..|b| - 1])
      || (a[|a| - 1] == b[|b| - 1] && IsSubsequence(a[..|a| - 1], b[..|b| - 1]))
  }

  lemma {:induction false} SkipLast<T>(a: seq<T>, b: seq<T>)
    requires b != [] && IsSubsequence(a, b[..|b| - 1])
    ensures IsSubsequence(a, b)
  {
  }

  lemma {:induction false} LongerStill<T>(a: seq<T>, b: seq<T>, tail: seq<T>)
    requires IsSubsequence(a, b) && |tail| <= 1
    ensures IsSubsequence(a, b + tail)
  {
    if tail == [] {
      assert b + tail == b;
    } else {
      assert (b + tail)[..|b|] == b;
      SkipLast(a, b + tail);
    }
  }

  /** A subsequence is no longer than the whole, and as long only when it is the whole. */
  lemma {:induction false} WholeSubsequence<T>(a: seq<T>, b: seq<T>)
    requires IsSubsequence(a, b)
    ensures |a| <= |b| && (|a| == |b| ==> a == b)
  {
    if a != [] {
      var a', b' := a[..|a| - 1], b[..|b| - 1];
      if IsSubsequence(a, b') {
        WholeSubsequence(a, b');
      } else {
        WholeSubsequence(a', b');
        assert a == a' + [a[|a| - 1]] && b == b' + [b[|b| - 1]];
      }
    }
  }

  lemma {:induction false} IsItsOwn<T>(a: seq<T>)
    ensures IsSubsequence(a, a)
  {
    if a != [] {
      IsItsOwn(a[..|a| - 1]);
    }
  }
}
