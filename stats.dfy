/** The numpy statistics the feature extractor uses, over exact reals:
    `np.mean`, the population variance under `np.std` (ddof 0), and
    `np.diff`. The square root itself is not modelled here. */
module Stats {

  function Sum(xs: seq<real>): real
  {
    if |xs| == 0 then 0.0 else Sum(xs[..|xs| - 1]) + xs[|xs| - 1]
  }

  function Mean(xs: seq<real>): real
    requires |xs| > 0
  {
    Sum(xs) / |xs| as real
  }

  /** Sum of the squared deviations of `xs` from `m`. */
  function SquaredDeviations(xs: seq<real>, m: real): real
  {
    if |xs| == 0 then 0.0
    else SquaredDeviations(xs[..|xs| - 1], m) + (xs[|xs| - 1] - m) * (xs[|xs| - 1] - m)
  }

  /** Population variance: the mean squared deviation from the mean. */
  function Variance(xs: seq<real>): real
    requires |xs| > 0
  {
    SquaredDeviations(xs, Mean(xs)) / |xs| as real
  }

  /** The two numpy reductions the feature extractor calls, `np.mean` and
      `np.std`, as functions supplied by the library. */
  datatype NumPy = NumPy(mean: seq<real> -> real, std: seq<real> -> real)

  /** `np.mean` of a non-empty sample is its arithmetic mean. */
  ghost predicate MeanIsArithmetic(np: NumPy)
  {
    forall xs {:trigger Mean(xs)} :: |xs| > 0 ==> np.mean(xs) == Mean(xs)
  }

  /** `np.std` of a non-empty sample is the population standard deviation
      (numpy's default, ddof 0): the square root, by `sqrt`, of Variance. */
  ghost predicate StdIsPopulation(np: NumPy, sqrt: real -> real)
  {
    forall xs {:trigger Variance(xs)} :: |xs| > 0 ==> np.std(xs) == sqrt(Variance(xs))
  }

  /** Consecutive differences, `np.diff`: one fewer element than `ts`. */
  function Gaps(ts: seq<real>): (g: seq<real>)
    ensures |g| == if |ts| <= 1 then 0 else |ts| - 1
  {
    if |ts| <= 1 then [] else Gaps(ts[..|ts| - 1]) + [ts[|ts| - 1] - ts[|ts| - 2]]
  }

  lemma SumSnoc(xs: seq<real>, x: real)
    ensures Sum(xs + [x]) == Sum(xs) + x
  {
    assert (xs + [x])[..|xs|] == xs;
  }

  lemma {:induction false} SquaredDeviationsNonNegative(xs: seq<real>, m: real)
    ensures SquaredDeviations(xs, m) >= 0.0
  {
    if |xs| > 0 {
      var d := xs[|xs| - 1] - m;
      SquaredDeviationsNonNegative(xs[..|xs| - 1], m);
      assert d * d >= 0.0;
    }
  }

  /** A variance is never negative, so its square root is defined. */
  lemma VarianceNonNegative(xs: seq<real>)
    requires |xs| > 0
    ensures Variance(xs) >= 0.0
  {
    SquaredDeviationsNonNegative(xs, Mean(xs));
  }

  /** One sample: its mean is itself and its variance is zero. */
  lemma SingletonStats(x: real)
    ensures Mean([x]) == x && Variance([x]) == 0.0
  {
    assert [x][..0] == [];
    assert Sum([x]) == x;
    assert SquaredDeviations([x], x) == 0.0;
  }

  /** The gaps between consecutive times add up to last minus first. */
  lemma {:induction false} GapsTelescope(ts: seq<real>)
    requires |ts| > 0
    ensures Sum(Gaps(ts)) == ts[|ts| - 1] - ts[0]
  {
    if |ts| > 1 {
      var n := |ts| - 1;
      var init := ts[..n];
      GapsTelescope(init);
      assert init[n - 1] == ts[n - 1] && init[0] == ts[0];
      assert Gaps(ts) == Gaps(init) + [ts[n] - ts[n - 1]];
      SumSnoc(Gaps(init), ts[n] - ts[n - 1]);
    }
  }
}
