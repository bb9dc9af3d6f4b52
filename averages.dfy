// The arithmetic mean shared by the server's speed averages and the analytics' hourly means.
module Averages {

  function Sum(xs: seq<real>): real
  {
    if xs == [] then 0.0 else xs[0] + Sum(xs[1..])
  }

  /** `sum(xs) / len(xs)`, pandas' `mean()` of a non-empty column. */
  function Mean(xs: seq<real>): real
    requires xs != []
  {
    Sum(xs) / |xs| as real
  }

  /** Values all at least lo sum to at least n * lo. */
  lemma {:induction false} SumAtLeast(xs: seq<real>, lo: real)
    requires forall i :: 0 <= i < |xs| ==> lo <= xs[i]
    ensures |xs| as real * lo <= Sum(xs)
  {
    if xs != [] {
      SumAtLeast(xs[1..], lo);
      assert |xs| as real * lo == lo + (|xs| - 1) as real * lo;
    }
  }

  /** Values all at most hi sum to at most n * hi. */
  lemma {:induction false} SumAtMost(xs: seq<real>, hi: real)
    requires forall i :: 0 <= i < |xs| ==> xs[i] <= hi
    ensures Sum(xs) <= |xs| as real * hi
  {
    if xs != [] {
      SumAtMost(xs[1..], hi);
      assert |xs| as real * hi == hi + (|xs| - 1) as real * hi;
    }
  }

  /** The mean is at least the least value and at most the greatest. */
  lemma {:induction false} MeanAtLeast(xs: seq<real>, lo: real)
    requires xs != [] && forall i :: 0 <= i < |xs| ==> lo <= xs[i]
    ensures lo <= Mean(xs)
  {
    SumAtLeast(xs, lo);
    assert Mean(xs) * |xs| as real == Sum(xs);
  }

  lemma {:induction false} MeanAtMost(xs: seq<real>, hi: real)
    requires xs != [] && forall i :: 0 <= i < |xs| ==> xs[i] <= hi
    ensures Mean(xs) <= hi
  {
    SumAtMost(xs, hi);
    assert Mean(xs) * |xs| as real == Sum(xs);
  }

  /** The mean of equal values is that value. */
  lemma {:induction false} MeanConstant(xs: seq<real>, c: real)
    requires xs != [] && forall i :: 0 <= i < |xs| ==> xs[i] == c
    ensures Mean(xs) == c
  {
    MeanAtLeast(xs, c);
    MeanAtMost(xs, c);
  }
}
