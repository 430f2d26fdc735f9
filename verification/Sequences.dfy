/** Totals over sequences, and sequences that list things in the order they happen. */
module Sequences {

  function Sum<T>(xs: seq<T>, weight: T -> nat): nat {
    if xs == [] then 0 else Sum(xs[..|xs| - 1], weight) + weight(xs[|xs| - 1])
  }

  lemma {:induction false} SumUpdate<T>(xs: seq<T>, i: nat, x: T, weight: T -> nat)
    requires i < |xs|
    ensures Sum(xs[i := x], weight) + weight(xs[i]) == Sum(xs, weight) + weight(x)
  {
    var n := |xs| - 1;
    if i < n {
      SumUpdate(xs[..n], i, x, weight);
      assert xs[i := x][..n] == xs[..n][i := x];
    } else {
      assert xs[i := x][..n] == xs[..n];
    }
  }

  lemma {:induction false} SumPush<T>(xs: seq<T>, x: T, weight: T -> nat)
    ensures Sum(xs + [x], weight) == Sum(xs, weight) + weight(x)
  {
    assert (xs + [x])[..|xs|] == xs;
  }

  /** A total is at least any one of its parts, and at least any two. */
  lemma {:induction false} SumParts<T>(xs: seq<T>, i: nat, j: nat, weight: T -> nat)
    requires i <= j < |xs|
    ensures weight(xs[j]) + (if i < j then weight(xs[i]) else 0) <= Sum(xs, weight)
  {
    var n := |xs| - 1;
    if j < n {
      SumParts(xs[..n], i, j, weight);
    } else if i < n {
      SumParts(xs[..n], i, i, weight);
    }
  }

  lemma {:induction false} SumNothing<T>(xs: seq<T>, weight: T -> nat)
    requires forall i :: 0 <= i < |xs| ==> weight(xs[i]) == 0
    ensures Sum(xs, weight) == 0
  {
    if xs != [] { SumNothing(xs[..|xs| - 1], weight); }
  }

  predicate Distinct(log: seq<nat>) {
    forall j, k :: 0 <= j < k < |log| ==> log[j] != log[k]
  }

  /** What is in a prefix of small numbers comes before any large number. */
  lemma {:induction false} PrefixFirst(early: seq<nat>, log: seq<nat>, bound: nat, j: nat, k: nat)
    requires early <= log && Distinct(log) && j < |log| && k < |log|
    requires forall m :: 0 <= m < |early| ==> early[m] < bound
    requires log[j] in early && log[k] >= bound
    ensures j < k
  {
    var m :| 0 <= m < |early| && early[m] == log[j];
    assert log[m] == log[j];
    assert forall i :: 0 <= i < |early| ==> log[i] == early[i];
  }
}
