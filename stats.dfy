/** Sums and arithmetic means over exact reals: the `mean()` that the
    dashboard applies to its columns and groups, without float rounding. */
module Stats {

  /** Sum of a column, left to right. */
  function Sum(xs: seq<real>): real
  {
    if xs == [] then 0.0 else xs[0] + Sum(xs[1..])
  }

  /** Arithmetic mean; only defined on a non-empty column. */
  function Mean(xs: seq<real>): real
    requires |xs| > 0
  {
    Sum(xs) / (|xs| as real)
  }

  lemma {:induction false} SumAppend(a: seq<real>, b: seq<real>)
    ensures Sum(a + b) == Sum(a) + Sum(b)
  {
    if a == [] {
      assert a + b == b;
    } else {
      assert (a + b)[1..] == a[1..] + b;
      SumAppend(a[1..], b);
    }
  }

  lemma {:induction false} SumAtLeast(xs: seq<real>, lo: real)
    requires forall i :: 0 <= i < |xs| ==> lo <= xs[i]
    ensures (|xs| as real) * lo <= Sum(xs)
  {
    if xs != [] {
      SumAtLeast(xs[1..], lo);
    }
  }

  lemma {:induction false} SumAtMost(xs: seq<real>, hi: real)
    requires forall i :: 0 <= i < |xs| ==> xs[i] <= hi
    ensures Sum(xs) <= (|xs| as real) * hi
  {
    if xs != [] {
      SumAtMost(xs[1..], hi);
    }
  }

  /** A mean is at least any lower bound of its values. */
  lemma {:induction false} MeanAtLeast(xs: seq<real>, lo: real)
    requires |xs| > 0
    requires forall i :: 0 <= i < |xs| ==> lo <= xs[i]
    ensures lo <= Mean(xs)
  {
    SumAtLeast(xs, lo);
    assert Mean(xs) * (|xs| as real) == Sum(xs);
  }

  /** A mean is at most any upper bound of its values. */
  lemma {:induction false} MeanAtMost(xs: seq<real>, hi: real)
    requires |xs| > 0
    requires forall i :: 0 <= i < |xs| ==> xs[i] <= hi
    ensures Mean(xs) <= hi
  {
    SumAtMost(xs, hi);
    assert Mean(xs) * (|xs| as real) == Sum(xs);
  }

  lemma {:induction false} MeanWithin(xs: seq<real>, lo: real, hi: real)
    requires |xs| > 0
    requires forall i :: 0 <= i < |xs| ==> lo <= xs[i] <= hi
    ensures lo <= Mean(xs) <= hi
  {
    MeanAtLeast(xs, lo);
    MeanAtMost(xs, hi);
  }

  /** The average of two figures weighted by the counts they stand for. */
  function Weighted(countA: nat, a: real, countB: nat, b: real): real
    requires countA + countB > 0
  {
    ((countA as real) * a + (countB as real) * b) / ((countA + countB) as real)
  }

  /** The mean of a concatenation weights every value equally: it is the
      average of the two parts' means weighted by their lengths. */
  lemma {:induction false} MeanAppend(a: seq<real>, b: seq<real>)
    requires |a| > 0 && |b| > 0
    ensures Mean(a + b) == Weighted(|a|, Mean(a), |b|, Mean(b))
  {
    var n := (|a| + |b|) as real;
    calc {
      Mean(a + b);
      Sum(a + b) / n;
      { SumAppend(a, b); }
      (Sum(a) + Sum(b)) / n;
      { ScaledMean(a); ScaledMean(b); }
      ((|a| as real) * Mean(a) + (|b| as real) * Mean(b)) / n;
    }
  }

  /** Scaling the mean back by the count gives the total. */
  lemma {:induction false} ScaledMean(xs: seq<real>)
    requires |xs| > 0
    ensures (|xs| as real) * Mean(xs) == Sum(xs)
  {
  }
}
