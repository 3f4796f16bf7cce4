/**
 * Sorting by a preorder. The library sort of the source is not stable, so callers learn only that
 * the result is an ordered permutation.
 */
module Sorting {
  import opened Linearizability

  ghost predicate TotalPreorder<T(!new)>(leq: (T, T) -> bool) {
    && (forall x, y :: leq(x, y) || leq(y, x))
    && (forall x, y, z :: leq(x, y) && leq(y, z) ==> leq(x, z))
  }

  ghost predicate Ordered<T>(leq: (T, T) -> bool, s: seq<T>) {
    forall i, j | 0 <= i < j < |s| :: leq(s[i], s[j])
  }

  method Sort<T(!new)>(s: seq<T>, leq: (T, T) -> bool) returns (r: seq<T>)
    requires TotalPreorder(leq)
    ensures Ordered(leq, r) && multiset(r) == multiset(s)
  {
    r := [];
    for i := 0 to |s|
      invariant Ordered(leq, r) && multiset(r) == multiset(s[..i])
    {
      var k := |r|;
      while k > 0 && !leq(r[k - 1], s[i])
        invariant 0 <= k <= |r|
        invariant forall j | k <= j < |r| :: leq(s[i], r[j])
      {
        k := k - 1;
      }
      InsertOrdered(leq, r, k, s[i]);
      assert r == r[..k] + r[k..];
      assert s[..i + 1] == s[..i] + [s[i]];
      r := r[..k] + [s[i]] + r[k..];
    }
    assert s[..|s|] == s;
  }

  lemma InsertOrdered<T(!new)>(leq: (T, T) -> bool, r: seq<T>, k: nat, x: T)
    requires TotalPreorder(leq) && Ordered(leq, r) && k <= |r|
    requires forall j | k <= j < |r| :: leq(x, r[j])
    requires k > 0 ==> leq(r[k - 1], x)
    ensures Ordered(leq, r[..k] + [x] + r[k..])
  {
    var t := r[..k] + [x] + r[k..];
    forall i, j | 0 <= i < j < |t| ensures leq(t[i], t[j]) {
      if j == k {
        assert i == k - 1 || leq(r[i], r[k - 1]);
      }
    }
  }

  /** Every total preorder sorts every sequence. */
  lemma {:induction false} SortedExists<T(!new)>(s: seq<T>, leq: (T, T) -> bool) returns (r: seq<T>)
    requires TotalPreorder(leq)
    ensures Ordered(leq, r) && multiset(r) == multiset(s)
  {
    if s == [] {
      r := [];
    } else {
      var n := |s| - 1;
      var before := SortedExists(s[..n], leq);
      assert s == s[..n] + [s[n]];
      r := Inserted(leq, before, s[n]);
    }
  }

  lemma Inserted<T(!new)>(leq: (T, T) -> bool, before: seq<T>, x: T) returns (r: seq<T>)
    requires TotalPreorder(leq) && Ordered(leq, before)
    ensures Ordered(leq, r) && multiset(r) == multiset(before) + multiset{x}
  {
    var k := |before|;
    while k > 0 && !leq(before[k - 1], x)
      invariant 0 <= k <= |before|
      invariant forall j | k <= j < |before| :: leq(x, before[j])
    {
      k := k - 1;
    }
    hide TotalPreorder, Ordered;
    InsertOrdered(leq, before, k, x);
    r := before[..k] + [x] + before[k..];
    assert before == before[..k] + before[k..];
  }

  lemma {:induction false} DistinctCount<T>(s: seq<T>, x: T)
    requires Distinct(s)
    ensures multiset(s)[x] <= 1
  {
    if s != [] {
      var last := |s| - 1;
      assert s == s[..last] + [s[last]];
      DistinctCount(s[..last], x);
      if s[last] == x {
        assert x !in s[..last];
      }
    }
  }

  lemma CountTwice<T>(t: seq<T>, i: nat, j: nat)
    requires i < j < |t|
    ensures t[i] == t[j] ==> multiset(t)[t[i]] >= 2
  {
    assert t == t[..i] + [t[i]] + t[i + 1..j] + [t[j]] + t[j + 1..];
  }

  /** A permutation of a repetition-free sequence has no repetitions either. */
  lemma PermutationDistinct<T>(s: seq<T>, t: seq<T>)
    requires Distinct(s) && multiset(s) == multiset(t)
    ensures Distinct(t) && |t| == |s|
    ensures forall x :: x in s <==> x in t
  {
    forall x ensures multiset(t)[x] <= 1 {
      DistinctCount(s, x);
    }
    forall i, j | 0 <= i < j < |t| ensures t[i] != t[j] {
      CountTwice(t, i, j);
    }
    assert |multiset(s)| == |s| && |multiset(t)| == |t|;
    forall x ensures x in s <==> x in t {
      assert x in multiset(s) <==> x in multiset(t);
    }
  }
}
