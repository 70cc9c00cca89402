/** Numeric series statistics: the `reduce((sum, val) => sum + val, 0)`
    totals, arithmetic means and population variance used by the forecast
    views.  Numbers are exact reals; an empty mean (JavaScript's `0 / 0`,
    i.e. NaN) is `None`. */
module Series {
  import opened Text

  /** Left fold `xs.reduce((sum, val) => sum + val, 0)`. */
  function Sum(xs: seq<real>): real {
    if |xs| == 0 then 0.0 else Sum(xs[..|xs| - 1]) + xs[|xs| - 1]
  }

  lemma {:induction false} SumAppend(xs: seq<real>, ys: seq<real>)
    ensures Sum(xs + ys) == Sum(xs) + Sum(ys)
    decreases |ys|
  {
    if |ys| == 0 {
      assert xs + ys == xs;
    } else {
      assert (xs + ys)[..|xs + ys| - 1] == xs + ys[..|ys| - 1];
      SumAppend(xs, ys[..|ys| - 1]);
    }
  }

  lemma {:induction false} SumNonNegative(xs: seq<real>)
    requires forall i :: 0 <= i < |xs| ==> xs[i] >= 0.0
    ensures Sum(xs) >= 0.0
    decreases |xs|
  {
    if |xs| > 0 {
      SumNonNegative(xs[..|xs| - 1]);
    }
  }

  /** The sum of `n` copies of `c`. */
  lemma {:induction false} SumConstant(xs: seq<real>, c: real)
    requires forall i :: 0 <= i < |xs| ==> xs[i] == c
    ensures Sum(xs) == |xs| as real * c
    decreases |xs|
  {
    if |xs| > 0 {
      SumConstant(xs[..|xs| - 1], c);
    }
  }

  /** `sum / length`; `None` stands for the NaN of an empty series. */
  function Mean(xs: seq<real>): (m: Option<real>)
    ensures m.None? <==> |xs| == 0
    ensures m.Some? ==> m.value * |xs| as real == Sum(xs)
  {
    if |xs| == 0 then None else Some(Sum(xs) / |xs| as real)
  }

  /** The squared deviations `(val - mean) ** 2`. */
  function SquaredDeviations(xs: seq<real>, mean: real): (r: seq<real>)
    ensures |r| == |xs|
    ensures forall i :: 0 <= i < |xs| ==> r[i] == (xs[i] - mean) * (xs[i] - mean)
  {
    seq(|xs|, i requires 0 <= i < |xs| => (xs[i] - mean) * (xs[i] - mean))
  }

  /** Population variance: the squared deviations summed and divided by
      `n`, not `n - 1`. */
  function Variance(xs: seq<real>): (v: Option<real>)
    ensures v.None? <==> |xs| == 0
    ensures v.Some? ==> v.value * |xs| as real == Sum(SquaredDeviations(xs, Mean(xs).value))
  {
    if |xs| == 0 then None
    else
      var total := Sum(SquaredDeviations(xs, Mean(xs).value));
      DivideBack(total, |xs| as real);
      Some(total / |xs| as real)
  }

  lemma DivideBack(t: real, n: real)
    requires n != 0.0
    ensures t / n * n == t
  {
  }

  lemma VarianceNonNegative(xs: seq<real>)
    requires |xs| > 0
    ensures Variance(xs).value >= 0.0
  {
    var m := Mean(xs).value;
    var d := SquaredDeviations(xs, m);
    forall i | 0 <= i < |xs|
      ensures d[i] >= 0.0
    {
      SquareNonNegative(xs[i] - m);
    }
    SumNonNegative(d);
  }

  lemma SquareNonNegative(a: real)
    ensures a * a >= 0.0
  {
    if a < 0.0 {
      var b := -a;
      assert b * b > 0.0;
      assert a * a == b * b;
    }
  }

  lemma ZeroSquare(a: real)
    requires a == 0.0
    ensures a * a == 0.0
  {
  }

  lemma DivideProduct(c: real, n: real)
    requires n != 0.0
    ensures c * n / n == c
  {
  }

  /** A constant series has that constant as its mean and variance zero. */
  lemma ConstantSeries(xs: seq<real>, c: real)
    requires |xs| > 0
    requires forall i :: 0 <= i < |xs| ==> xs[i] == c
    ensures Mean(xs) == Some(c)
    ensures Variance(xs) == Some(0.0)
  {
    SumConstant(xs, c);
    var n := |xs| as real;
    assert Sum(xs) / n == c by {
      assert Sum(xs) == c * n;
      DivideProduct(c, n);
    }
    var d := SquaredDeviations(xs, c);
    forall i | 0 <= i < |d|
      ensures d[i] == 0.0
    {
      var e := xs[i] - c;
      assert e == 0.0;
      ZeroSquare(e);
      assert d[i] == e * e;
    }
    SumConstant(d, 0.0);
  }
}
