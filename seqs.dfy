/**
  * `Array.prototype.filter` over sequences: the elements that pass a test, in
  * their original order.
  */
module Seqs {

  function Filter<T>(xs: seq<T>, keep: T -> bool): (r: seq<T>)
    ensures |r| <= |xs|
    ensures forall x :: x in r ==> x in xs && keep(x)
  {
    if xs == [] then []
    else
      var prev := Filter(xs[..|xs| - 1], keep);
      if keep(xs[|xs| - 1]) then prev + [xs[|xs| - 1]] else prev
  }

  /** Filtering a concatenation filters each part and keeps them in order, so the
      kept elements appear in the order of the input. */
  lemma {:induction false} FilterConcat<T>(a: seq<T>, b: seq<T>, keep: T -> bool)
    ensures Filter(a + b, keep) == Filter(a, keep) + Filter(b, keep)
  {
    if b == [] {
      assert a + b == a;
    } else {
      assert (a + b)[..|a + b| - 1] == a + b[..|b| - 1];
      FilterConcat(a, b[..|b| - 1], keep);
    }
  }

  /** An element is kept exactly when it is in the input and passes the test. */
  lemma {:induction false} FilterMembership<T>(xs: seq<T>, keep: T -> bool, x: T)
    ensures x in Filter(xs, keep) <==> x in xs && keep(x)
  {
    if xs != [] {
      FilterMembership(xs[..|xs| - 1], keep, x);
      assert xs == xs[..|xs| - 1] + [xs[|xs| - 1]];
    }
  }

  /** Nothing is dropped when every element passes, and nothing is kept when none does. */
  lemma {:induction false} FilterAllOrNone<T>(xs: seq<T>, keep: T -> bool)
    ensures (forall i :: 0 <= i < |xs| ==> keep(xs[i])) ==> Filter(xs, keep) == xs
    ensures (forall i :: 0 <= i < |xs| ==> !keep(xs[i])) ==> Filter(xs, keep) == []
  {
    if xs != [] {
      FilterAllOrNone(xs[..|xs| - 1], keep);
      assert xs == xs[..|xs| - 1] + [xs[|xs| - 1]];
    }
  }
}
