/** Weighted totals over sequences, and rearrangements of them.

    Every concurrent component below keeps its callers, jobs or workers in a
    sequence whose index is the identity, so "how many permits are held" and
    similar counters are totals of a weight over that sequence.
 */
module Counting {

  function Total<T>(s: seq<T>, weight: T -> nat): nat
  {
    if s == [] then 0 else Total(s[..|s| - 1], weight) + weight(s[|s| - 1])
  }

  lemma Append<T>(s: seq<T>, x: T, weight: T -> nat)
    ensures Total(s + [x], weight) == Total(s, weight) + weight(x)
  {
    assert (s + [x])[..|s|] == s;
  }

  lemma {:induction false} Update<T>(s: seq<T>, i: nat, x: T, weight: T -> nat)
    requires i < |s|
    ensures Total(s[i := x], weight) + weight(s[i]) == Total(s, weight) + weight(x)
  {
    var last := |s| - 1;
    if i == last {
      assert s[i := x][..last] == s[..last];
    } else {
      assert s[i := x][..last] == s[..last][i := x];
      Update(s[..last], i, x, weight);
    }
  }

  /** A total is at least each of its terms. */
  lemma {:induction false} AtLeast<T>(s: seq<T>, i: nat, weight: T -> nat)
    requires i < |s|
    ensures weight(s[i]) <= Total(s, weight)
  {
    if i < |s| - 1 {
      AtLeast(s[..|s| - 1], i, weight);
    }
  }

  lemma {:induction false} Dominated<T>(s: seq<T>, small: T -> nat, large: T -> nat)
    requires forall i :: 0 <= i < |s| ==> small(s[i]) <= large(s[i])
    ensures Total(s, small) <= Total(s, large)
  {
    if s != [] {
      Dominated(s[..|s| - 1], small, large);
    }
  }

  lemma {:induction false} Vanishes<T>(s: seq<T>, weight: T -> nat)
    requires forall i :: 0 <= i < |s| ==> weight(s[i]) == 0
    ensures Total(s, weight) == 0
  {
    if s != [] {
      Vanishes(s[..|s| - 1], weight);
    }
  }

  /** A positive total has a positive term. */
  lemma {:induction false} Witness<T>(s: seq<T>, weight: T -> nat) returns (i: nat)
    requires 0 < Total(s, weight)
    ensures i < |s| && 0 < weight(s[i])
  {
    if 0 < weight(s[|s| - 1]) {
      i := |s| - 1;
    } else {
      i := Witness(s[..|s| - 1], weight);
    }
  }

  lemma {:induction false} Same<T>(s: seq<T>, t: seq<T>, weight: T -> nat)
    requires |s| == |t| && forall i :: 0 <= i < |s| ==> weight(s[i]) == weight(t[i])
    ensures Total(s, weight) == Total(t, weight)
  {
    if s != [] {
      Same(s[..|s| - 1], t[..|s| - 1], weight);
    }
  }

  /** A rearrangement has the same elements, and repeats none if the original did not. */
  lemma Rearranged<T>(a: seq<T>, b: seq<T>)
    requires multiset(a) == multiset(b)
    requires forall p, q :: 0 <= p < q < |a| ==> a[p] != a[q]
    ensures |a| == |b| && forall x :: x in a <==> x in b
    ensures forall p, q :: 0 <= p < q < |b| ==> b[p] != b[q]
  {
    assert |multiset(a)| == |a| && |multiset(b)| == |b|;
    assert forall x :: x in multiset(a) <==> x in a;
    assert forall x :: x in multiset(b) <==> x in b;
    forall p, q | 0 <= p < q < |b| ensures b[p] != b[q] {
      if b[p] == b[q] {
        Repeated(b, p, q);
        OccursOnce(a, b[p]);
        assert false;
      }
    }
  }

  lemma Repeated<T>(s: seq<T>, p: nat, q: nat)
    requires p < q < |s| && s[p] == s[q]
    ensures multiset(s)[s[p]] >= 2
  {
    assert s == s[..q] + s[q..];
    assert s[..q][p] == s[p] && s[q..][0] == s[p];
    assert s[p] in multiset(s[..q]) && s[p] in multiset(s[q..]);
  }

  lemma {:induction false} OccursOnce<T>(s: seq<T>, x: T)
    requires forall p, q :: 0 <= p < q < |s| ==> s[p] != s[q]
    ensures multiset(s)[x] <= 1
  {
    if s != [] {
      var last := |s| - 1;
      OccursOnce(s[..last], x);
      assert s == s[..last] + [s[last]];
      if s[last] == x {
        assert x !in s[..last];
        assert x !in multiset(s[..last]);
      }
    }
  }
}
