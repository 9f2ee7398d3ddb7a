/** A diagonal-covariance Gaussian mixture trained by expectation-maximisation
    in full passes over the data, grown by splitting its heaviest component
    (SDS/ml/gmm/gmm.py).

    The transcendental numerics (`np.log`, `np.exp`, sklearn's `logsumexp`
    and the diagonal Gaussian log-density) are not computed here: they are
    the uninterpreted function fields of a `Numerics` value that every
    operation needing them takes as a parameter. Everything else, in
    particular the bookkeeping of weights, means, variances and the history
    of log-likelihoods, is exact arithmetic over `real`. */
module GaussianMixture {
  import opened RealSums

  /** `np.finfo(float).eps`, the smoothing constant of the M-step: 2^-52. */
  const Eps: real := 1.0 / 4503599627370496.0

  type Vector = seq<real>
  type Matrix = seq<Vector>

  /** `m` has `rows` rows of `cols` entries each. */
  predicate Shaped(m: Matrix, rows: nat, cols: nat)
  {
    |m| == rows && forall r :: 0 <= r < rows ==> |m[r]| == cols
  }

  /** The matrix of the given shape whose entries all equal `v`. */
  function Constant(rows: nat, cols: nat, v: real): (m: Matrix)
    ensures Shaped(m, rows, cols)
    ensures forall r, c :: 0 <= r < rows && 0 <= c < cols ==> m[r][c] == v
  {
    seq(rows, _ => Fill(cols, v))
  }

  /** The three parameter arrays of a mixture: one weight, one mean row and
      one variance row per component. */
  datatype Params = Params(weights: Vector, means: Matrix, covars: Matrix)
  {
    /** One mean row and one variance row per weight, each of `d` entries. */
    predicate WellShaped(d: nat)
    {
      Shaped(means, |weights|, d) && Shaped(covars, |weights|, d)
    }
  }

  /** Every entry is strictly above `floor`. */
  predicate Above(v: Vector, floor: real)
  {
    forall f :: 0 <= f < |v| ==> v[f] > floor
  }

  /** The state an M-step guarantees: weights summing to one and every
      variance strictly above the floor `minCovar`. */
  predicate Normalised(p: Params, minCovar: real)
  {
    && Sum(p.weights) == 1.0
    && forall c :: 0 <= c < |p.covars| ==> Above(p.covars[c], minCovar)
  }

  /** `np.delete(s, i)` along the first axis. */
  function RemoveAt<T>(s: seq<T>, i: nat): (r: seq<T>)
    requires i < |s|
    ensures |r| == |s| - 1
  {
    s[..i] + s[i + 1..]
  }

  // ---------------------------------------------------------------------
  // Numerics and the expectation step
  // ---------------------------------------------------------------------

  /** The floating-point library the mixture calls: natural logarithm and
      exponential, sklearn's `logsumexp`, and the per-component diagonal
      Gaussian log-density `log N(x; mean, covar)`. */
  datatype Numerics = Numerics(
    log: real -> real,
    exp: real -> real,
    logSumExp: seq<real> -> real,
    logDensity: (Vector, Vector, Vector) -> real)

  function Exp(num: Numerics, t: real): real
  {
    num.exp(t)
  }

  function Log(num: Numerics, t: real): real
  {
    num.log(t)
  }

  function LogSumExp(num: Numerics, v: Vector): real
  {
    num.logSumExp(v)
  }

  function LogDensity(num: Numerics, x: Vector, mean: Vector, covar: Vector): real
  {
    num.logDensity(x, mean, covar)
  }

  /** Result of one expectation: the log-likelihood of the sample under the
      whole mixture and the posterior of each component. */
  datatype Posterior = Posterior(logProb: real, resp: Vector)

  /** `np.log(weights) + log_multivariate_normal_density_diag(x, means, covars)`:
      one joint log-probability per component. */
  function Lpr(num: Numerics, p: Params, x: Vector): (lpr: Vector)
    requires |p.means| == |p.weights| == |p.covars|
    ensures |lpr| == |p.weights|
  {
    seq(|p.weights|, c requires 0 <= c < |p.weights| =>
      Log(num, p.weights[c]) + LogDensity(num, x, p.means[c], p.covars[c]))
  }

  /** `np.exp(v - logsumexp(v))`. */
  function Softmax(num: Numerics, v: Vector): (r: Vector)
    ensures |r| == |v|
  {
    var lse := LogSumExp(num, v);
    seq(|v|, c requires 0 <= c < |v| => Exp(num, v[c] - lse))
  }

  /** `np.exp(v)`. */
  function Exps(num: Numerics, v: Vector): (r: Vector)
    ensures |r| == |v|
  {
    seq(|v|, c requires 0 <= c < |v| => Exp(num, v[c]))
  }

  /** Non-negative entries that sum to one. */
  predicate IsDistribution(r: Vector)
  {
    (forall c :: 0 <= c < |r| ==> r[c] >= 0.0) && Sum(r) == 1.0
  }

  /** The assumption the M-step rests on: for `k` components, the
      responsibilities computed from any joint log-probabilities form a
      probability distribution. `SoftmaxIsDistribution` shows that the laws
      of `exp` and the definition of `logsumexp` give exactly this. With no
      component there is nothing to normalise (and `logsumexp` raises). */
  ghost predicate NormalisesResponsibilities(num: Numerics, k: nat)
  {
    k > 0 ==> forall v: Vector {:trigger IsDistribution(Softmax(num, v))} :: |v| == k ==> IsDistribution(Softmax(num, v))
  }

  lemma {:induction false} QuotientOfProduct(a: real, b: real, c: real)
    requires b != 0.0 && a * b == c
    ensures a == c / b
  {
  }

  lemma {:induction false} DivSelf(t: real)
    requires t != 0.0
    ensures t / t == 1.0
  {
  }

  /** If `exp` turns differences into quotients, each responsibility is
      `exp(v[c])` divided by `exp(logsumexp(v))`. */
  lemma {:induction false} SoftmaxAsQuotients(num: Numerics, v: Vector, big: real)
    requires big == Exp(num, LogSumExp(num, v)) && big != 0.0
    requires forall i :: 0 <= i < |v| ==>
      Exp(num, v[i] - LogSumExp(num, v)) * big == Exp(num, v[i])
    ensures Softmax(num, v) == seq(|v|, c requires 0 <= c < |v| => Exps(num, v)[c] / big)
  {
    var quotients := seq(|v|, c requires 0 <= c < |v| => Exps(num, v)[c] / big);
    forall c | 0 <= c < |v|
      ensures Softmax(num, v)[c] == quotients[c]
    {
      QuotientOfProduct(Softmax(num, v)[c], big, Exps(num, v)[c]);
    }
  }

  /** If `exp` is positive, turns differences into quotients, and
      `logsumexp(v)` is the logarithm of the sum of `exp(v[i])`, then the
      responsibilities of `v` are non-negative and sum to one. */
  lemma {:induction false} SoftmaxIsDistribution(num: Numerics, v: Vector)
    requires forall t :: Exp(num, t) > 0.0
    requires forall i :: 0 <= i < |v| ==>
      Exp(num, v[i] - LogSumExp(num, v)) * Exp(num, LogSumExp(num, v)) == Exp(num, v[i])
    requires Exp(num, LogSumExp(num, v)) == Sum(Exps(num, v))
    ensures IsDistribution(Softmax(num, v))
  {
    var big := Exp(num, LogSumExp(num, v));
    SoftmaxAsQuotients(num, v, big);
    SumScaled(Exps(num, v), big);
    DivSelf(big);
  }

  /** `GMM.expectation` for the parameters `p`: the mixture log-likelihood
      `logsumexp(lpr)` of `x` and the responsibilities `exp(lpr - log_prob)`. */
  function EStep(num: Numerics, p: Params, x: Vector): (e: Posterior)
    requires |p.means| == |p.weights| == |p.covars|
    ensures |e.resp| == |p.weights|
  {
    var lpr := Lpr(num, p, x);
    Posterior(LogSumExp(num, lpr), Softmax(num, lpr))
  }

  /** `GMM.score` for the parameters `p`: recomputes the joint log-probabilities
      of the one-row reshaped `x` and reduces them with `logsumexp`; this is
      the log-likelihood that the expectation step reports. */
  function ScoreOf(num: Numerics, p: Params, x: Vector): (lp: real)
    requires |p.means| == |p.weights| == |p.covars|
    ensures lp == EStep(num, p, x).logProb
  {
    LogSumExp(num, Lpr(num, p, x))
  }

  // ---------------------------------------------------------------------
  // Sufficient statistics of one pass and the M-step
  // ---------------------------------------------------------------------

  /** The accumulators of one pass: the summed log-likelihood, the sample
      count `n`, and `acc_weights`, `acc_means`, `acc_covars`. */
  datatype Stats = Stats(logProb: real, n: nat, accW: Vector, accM: Matrix, accC: Matrix)

  predicate StatsShaped(s: Stats, k: nat, d: nat)
  {
    |s.accW| == k && Shaped(s.accM, k, d) && Shaped(s.accC, k, d)
  }

  /** Entry-wise sum of two matrices of equal shape. */
  function MAdd(a: Matrix, b: Matrix): (r: Matrix)
    requires |a| == |b| && forall i :: 0 <= i < |a| ==> |a[i]| == |b[i]|
    ensures |r| == |a|
    ensures forall i :: 0 <= i < |r| ==> r[i] == VAdd(a[i], b[i])
  {
    seq(|a|, i requires 0 <= i < |a| => VAdd(a[i], b[i]))
  }

  /** `a * x`. */
  function Scale(a: real, x: Vector): (r: Vector)
    ensures |r| == |x|
  {
    seq(|x|, f requires 0 <= f < |x| => a * x[f])
  }

  /** `np.dot(responsibilities[:, np.newaxis], x_m)`: row `c` is `r[c] * x`. */
  function Outer(r: Vector, x: Vector): (m: Matrix)
    ensures Shaped(m, |r|, |x|)
  {
    seq(|r|, c requires 0 <= c < |r| => Scale(r[c], x))
  }

  /** `a * (x - mean) ** 2`, one row of the variance update. */
  function WeightedSqDevRow(a: real, x: Vector, mean: Vector): (row: Vector)
    requires |mean| == |x|
    ensures |row| == |x|
  {
    seq(|x|, f requires 0 <= f < |x| => a * ((x[f] - mean[f]) * (x[f] - mean[f])))
  }

  /** `responsibilities[:, np.newaxis] * (x_m - means) ** 2`. */
  function WeightedSqDev(r: Vector, x: Vector, means: Matrix): (m: Matrix)
    requires Shaped(means, |r|, |x|)
    ensures Shaped(m, |r|, |x|)
  {
    seq(|r|, c requires 0 <= c < |r| => WeightedSqDevRow(r[c], x, means[c]))
  }

  /** The accumulators at the start of a pass: everything zero. */
  function ZeroStats(k: nat, d: nat): (s: Stats)
    ensures StatsShaped(s, k, d) && s.n == 0
  {
    Stats(0.0, 0, Fill(k, 0.0), Constant(k, d, 0.0), Constant(k, d, 0.0))
  }

  /** The posteriors `self.expectation` gives the samples `xs`, in order,
      under the parameters `p`. */
  function Posteriors(num: Numerics, p: Params, xs: seq<Vector>): (posts: seq<Posterior>)
    requires |p.means| == |p.weights| == |p.covars|
    ensures |posts| == |xs|
  {
    seq(|xs|, j requires 0 <= j < |xs| => EStep(num, p, xs[j]))
  }

  /** The body of the inner loop of `fit`: adds the posterior `e` of the
      sample `x` to the accumulators, the squared deviations taken from the
      `means` of the start of the pass. */
  function Accumulate(s: Stats, e: Posterior, x: Vector, means: Matrix): (s': Stats)
    requires StatsShaped(s, |e.resp|, |x|) && Shaped(means, |e.resp|, |x|)
    ensures StatsShaped(s', |e.resp|, |x|) && s'.n == s.n + 1
  {
    Stats(s.logProb + e.logProb, s.n + 1,
          VAdd(s.accW, e.resp),
          MAdd(s.accM, Outer(e.resp, x)),
          MAdd(s.accC, WeightedSqDev(e.resp, x, means)))
  }

  /** The accumulators after a pass over the samples `xs`, in order, where
      `posts[j]` is the posterior of `xs[j]` over `k` components and `means`
      are the means of the start of the pass. */
  function PassStats(posts: seq<Posterior>, means: Matrix, xs: seq<Vector>, k: nat, d: nat): (s: Stats)
    requires |posts| == |xs| && Shaped(means, k, d)
    requires forall j :: 0 <= j < |xs| ==> |xs[j]| == d && |posts[j].resp| == k
    ensures StatsShaped(s, k, d) && s.n == |xs|
    decreases |xs|
  {
    if |xs| == 0 then ZeroStats(k, d)
    else
      var n := |xs| - 1;
      Accumulate(PassStats(posts[..n], means, xs[..n], k, d), posts[n], xs[n], means)
  }

  /** A pass over one more sample accumulates that sample's posterior onto
      the pass over the samples before it. */
  lemma PassStatsStep(posts: seq<Posterior>, means: Matrix, xs: seq<Vector>, k: nat, d: nat, j: nat)
    requires j < |xs| == |posts| && Shaped(means, k, d)
    requires forall i :: 0 <= i < |xs| ==> |xs[i]| == d && |posts[i].resp| == k
    ensures PassStats(posts[..j + 1], means, xs[..j + 1], k, d)
         == Accumulate(PassStats(posts[..j], means, xs[..j], k, d), posts[j], xs[j], means)
  {
    assert xs[..j + 1][..j] == xs[..j];
    assert posts[..j + 1][..j] == posts[..j];
  }

  /** Every entry is non-negative. */
  predicate NonNegative(v: Vector)
  {
    forall c :: 0 <= c < |v| ==> v[c] >= 0.0
  }

  /** What a pass guarantees of its accumulators when responsibilities are
      distributions: one unit of weight per sample, no negative weight and
      no negative squared deviation. */
  predicate MassConserved(s: Stats)
  {
    && Sum(s.accW) == s.n as real
    && NonNegative(s.accW)
    && forall c :: 0 <= c < |s.accC| ==> NonNegative(s.accC[c])
  }

  lemma {:induction false} WeightedSquareNonNegative(r: real, t: real)
    requires r >= 0.0
    ensures r * (t * t) >= 0.0
  {
  }

  /** Adding weighted squared deviations with non-negative weights keeps a
      variance accumulator non-negative. */
  lemma {:induction false} DeviationsKeepNonNegative(acc: Matrix, r: Vector, x: Vector, means: Matrix)
    requires Shaped(means, |r|, |x|) && Shaped(acc, |r|, |x|)
    requires NonNegative(r)
    requires forall c :: 0 <= c < |acc| ==> NonNegative(acc[c])
    ensures var acc' := MAdd(acc, WeightedSqDev(r, x, means));
      forall c :: 0 <= c < |acc'| ==> NonNegative(acc'[c])
  {
    var dev := WeightedSqDev(r, x, means);
    var acc' := MAdd(acc, dev);
    forall c | 0 <= c < |acc'|
      ensures NonNegative(acc'[c])
    {
      var row := WeightedSqDevRow(r[c], x, means[c]);
      assert acc'[c] == VAdd(acc[c], row);
      forall f | 0 <= f < |x|
        ensures row[f] >= 0.0
      {
        WeightedSquareNonNegative(r[c], x[f] - means[c][f]);
      }
    }
  }

  /** Adding one posterior that is a distribution keeps `MassConserved`. */
  lemma {:induction false} AccumulateMass(s: Stats, e: Posterior, x: Vector, means: Matrix)
    requires StatsShaped(s, |e.resp|, |x|) && Shaped(means, |e.resp|, |x|)
    requires IsDistribution(e.resp) && MassConserved(s)
    ensures MassConserved(Accumulate(s, e, x, means))
  {
    SumVAdd(s.accW, e.resp);
    DeviationsKeepNonNegative(s.accC, e.resp, x, means);
  }

  /** A whole pass whose posteriors are distributions keeps `MassConserved`:
      its accumulated weight equals the number of samples. */
  lemma {:induction false} PassStatsMass(posts: seq<Posterior>, means: Matrix, xs: seq<Vector>, k: nat, d: nat)
    requires |posts| == |xs| && Shaped(means, k, d)
    requires forall j :: 0 <= j < |xs| ==> |xs[j]| == d && |posts[j].resp| == k
    requires forall j :: 0 <= j < |posts| ==> IsDistribution(posts[j].resp)
    ensures MassConserved(PassStats(posts, means, xs, k, d))
    decreases |xs|
  {
    if |xs| == 0 {
      SumFill(k, 0.0);
    } else {
      var n := |xs| - 1;
      PassStatsMass(posts[..n], means, xs[..n], k, d);
      AccumulateMass(PassStats(posts[..n], means, xs[..n], k, d), posts[n], xs[n], means);
    }
  }

  /** Under `NormalisesResponsibilities`, every posterior of the expectation
      step is a distribution. */
  lemma {:induction false} PosteriorsAreDistributions(num: Numerics, p: Params, xs: seq<Vector>)
    requires |p.means| == |p.weights| == |p.covars| && |p.weights| > 0
    requires NormalisesResponsibilities(num, |p.weights|)
    ensures forall j :: 0 <= j < |xs| ==> IsDistribution(Posteriors(num, p, xs)[j].resp)
  {
    forall j | 0 <= j < |xs|
      ensures IsDistribution(Posteriors(num, p, xs)[j].resp)
    {
      assert Posteriors(num, p, xs)[j].resp == Softmax(num, Lpr(num, p, xs[j]));
    }
  }

  /** `(acc_weights + EPS) / (n + n_components * EPS)`: the re-estimated
      weights, one per accumulated weight. */
  function SmoothedWeights(accW: Vector, n: nat): (w: Vector)
    ensures |w| == |accW|
  {
    var total := n as real + |accW| as real * Eps;
    seq(|accW|, c requires 0 <= c < |accW| => (accW[c] + Eps) / total)
  }

  /** `(acc + EPS) / (w + n_components * EPS) + offset` for one component
      row, `kEps` standing for `n_components * EPS`. */
  function SmoothedRow(acc: Vector, w: real, kEps: real, offset: real): (row: Vector)
    requires w >= 0.0 && kEps > 0.0
    ensures |row| == |acc|
  {
    seq(|acc|, f requires 0 <= f < |acc| => (acc[f] + Eps) / (w + kEps) + offset)
  }

  /** `(acc + EPS) / (acc_weights[:, np.newaxis] + n_components * EPS) + offset`:
      row `c` of an accumulator divided by the smoothed weight of component
      `c`; the means use offset 0 and the variances the floor `min_covar`. */
  function SmoothedRows(acc: Matrix, accW: Vector, d: nat, offset: real): (m: Matrix)
    requires Shaped(acc, |accW|, d) && NonNegative(accW)
    ensures Shaped(m, |accW|, d)
  {
    var kEps := |accW| as real * Eps;
    seq(|accW|, c requires 0 <= c < |accW| => SmoothedRow(acc[c], accW[c], kEps, offset))
  }

  /** The re-estimation of `fit` from the accumulators of a pass. */
  function MStep(s: Stats, k: nat, d: nat, minCovar: real): (p: Params)
    requires StatsShaped(s, k, d) && NonNegative(s.accW)
    ensures |p.weights| == k && p.WellShaped(d)
  {
    Params(SmoothedWeights(s.accW, s.n),
           SmoothedRows(s.accM, s.accW, d, 0.0),
           SmoothedRows(s.accC, s.accW, d, minCovar))
  }

  /** If the accumulated weight equals the sample count, the re-estimated
      weights sum to exactly one: the `k` smoothing terms `Eps` in the
      numerators are matched by the `k * Eps` in the common denominator. */
  lemma {:induction false} SmoothedWeightsSumToOne(accW: Vector, n: nat)
    requires |accW| > 0 && Sum(accW) == n as real
    ensures Sum(SmoothedWeights(accW, n)) == 1.0
  {
    var total := n as real + |accW| as real * Eps;
    assert total > 0.0;
    SumSmoothed(accW, Eps, total);
    DivSelf(total);
    assert SmoothedWeights(accW, n) == seq(|accW|, c requires 0 <= c < |accW| => (accW[c] + Eps) / total);
  }

  /** With no negative accumulated weight or accumulated entry, every
      re-estimated entry lies strictly above the offset: this is how the
      variances stay above `min_covar`. */
  lemma {:induction false} SmoothedRowsAbove(acc: Matrix, accW: Vector, d: nat, offset: real)
    requires Shaped(acc, |accW|, d) && NonNegative(accW)
    requires forall c :: 0 <= c < |acc| ==> NonNegative(acc[c])
    ensures var m := SmoothedRows(acc, accW, d, offset);
      forall c :: 0 <= c < |m| ==> Above(m[c], offset)
  {
    var m := SmoothedRows(acc, accW, d, offset);
    var kEps := |accW| as real * Eps;
    forall c | 0 <= c < |m|
      ensures Above(m[c], offset)
    {
      assert m[c] == SmoothedRow(acc[c], accW[c], kEps, offset);
      forall f | 0 <= f < d
        ensures m[c][f] > offset
      {
        assert acc[c][f] >= 0.0;
        assert (acc[c][f] + Eps) / (accW[c] + kEps) > 0.0;
      }
    }
  }

  /** An M-step on the accumulators of a whole pass yields `Normalised`
      parameters. */
  lemma {:induction false} MStepNormalises(s: Stats, k: nat, d: nat, minCovar: real)
    requires StatsShaped(s, k, d) && k > 0 && MassConserved(s)
    ensures Normalised(MStep(s, k, d, minCovar), minCovar)
  {
    SmoothedWeightsSumToOne(s.accW, s.n);
    SmoothedRowsAbove(s.accC, s.accW, d, minCovar);
  }

  // ---------------------------------------------------------------------
  // The training loop as a specification
  // ---------------------------------------------------------------------

  function Abs(r: real): real
  {
    if r < 0.0 then -r else r
  }

  /** The early-stop rule of `fit`: the pass just recorded has index above 2
      and moved the mean log-likelihood by less than `thresh`. */
  predicate Converged(lps: seq<real>, thresh: real)
  {
    |lps| > 3 && Abs(lps[|lps| - 1] - lps[|lps| - 2]) < thresh
  }

  /** The mean per-sample log-likelihood that a pass with statistics `s` records. */
  function MeanLogProb(s: Stats): (m: real)
    requires s.n > 0
  {
    s.logProb / s.n as real
  }

  /** What one pass of `fit` yields: the mean log-likelihood it records and
      the parameters its M-step computes. */
  datatype PassResult = PassResult(meanLogProb: real, next: Params)

  /** The outer loop of `fit`, for any pass function `step`: at most
      `remaining` further passes from the parameters `p` with history `lps`.
      Each pass appends its mean log-likelihood; if `Converged` then holds the
      loop stops without installing the pass's re-estimate, otherwise the
      re-estimate replaces the parameters. Yields the final parameters and
      the history. */
  function FitLoop(step: Params -> PassResult, p: Params, remaining: nat, lps: seq<real>, thresh: real)
    : (r: (Params, seq<real>))
    ensures |lps| <= |r.1| <= |lps| + remaining
    decreases remaining
  {
    if remaining == 0 then (p, lps)
    else
      var r := step(p);
      var lps' := lps + [r.meanLogProb];
      if Converged(lps', thresh) then (p, lps')
      else FitLoop(step, r.next, remaining - 1, lps', thresh)
  }

  /** The history grows by one entry per pass, never by more than
      `remaining` entries, keeps what it started with, and stops short only
      on the convergence rule. */
  lemma {:induction false} FitLoopHistory(step: Params -> PassResult, p: Params, remaining: nat,
                                          lps: seq<real>, thresh: real)
    ensures var (_, h) := FitLoop(step, p, remaining, lps, thresh);
      && |lps| <= |h| <= |lps| + remaining
      && h[..|lps|] == lps
      && (remaining > 0 ==> |h| > |lps|)
      && (|h| < |lps| + remaining ==> Converged(h, thresh))
    decreases remaining
  {
    if remaining > 0 {
      var r := step(p);
      var lps' := lps + [r.meanLogProb];
      if !Converged(lps', thresh) {
        FitLoopHistory(step, r.next, remaining - 1, lps', thresh);
        var h := FitLoop(step, r.next, remaining - 1, lps', thresh).1;
        assert h[..|lps|] == h[..|lps'|][..|lps|];
      }
    }
  }

  /** The pass on which the rule fires does not re-estimate, the last
      allowed pass included: whenever the loop ran a pass and its history
      ends in the rule, the last recorded mean log-likelihood is the one that
      `step` gives for the very parameters the loop returns. */
  lemma {:induction false} FitLoopStopKeepsScoredParams(step: Params -> PassResult, p: Params,
                                                        remaining: nat, lps: seq<real>, thresh: real)
    ensures var (q, h) := FitLoop(step, p, remaining, lps, thresh);
      |h| > |lps| && Converged(h, thresh) ==> h[|h| - 1] == step(q).meanLogProb
    decreases remaining
  {
    if remaining > 0 {
      var r := step(p);
      var lps' := lps + [r.meanLogProb];
      if !Converged(lps', thresh) {
        FitLoopStopKeepsScoredParams(step, r.next, remaining - 1, lps', thresh);
        FitLoopHistory(step, r.next, remaining - 1, lps', thresh);
        var h := FitLoop(step, r.next, remaining - 1, lps', thresh).1;
        if |h| == |lps'| {
          assert h == lps';
        }
      }
    }
  }

  /** If every re-estimate of a well-formed (`inv`) state is well-formed and
      `good`, the loop ends in a well-formed state, and in a `good` one once
      any pass has run: the first pass can never stop the loop, since the rule
      needs an index above 2. */
  lemma {:induction false} FitLoopEndsInReestimate(step: Params -> PassResult, p: Params, remaining: nat,
                                                   lps: seq<real>, thresh: real,
                                                   inv: Params -> bool, good: Params -> bool)
    requires forall q :: inv(q) ==> inv(step(q).next) && good(step(q).next)
    requires inv(p)
    requires |lps| > 0 ==> good(p)
    ensures var q := FitLoop(step, p, remaining, lps, thresh).0;
      inv(q) && (|lps| + remaining > 0 ==> good(q))
    decreases remaining
  {
    if remaining > 0 {
      var r := step(p);
      var lps' := lps + [r.meanLogProb];
      if !Converged(lps', thresh) {
        FitLoopEndsInReestimate(step, r.next, remaining - 1, lps', thresh, inv, good);
      }
    }
  }

  /** One pass of `fit` over the samples `xs` with `d` features from the
      parameters `p`. Only meaningful for the inputs `fit` admits (a non-empty
      dataset of `d`-wide rows, at least one component, parameters of that
      width, responsibilities that are distributions); elsewhere it leaves `p`
      as it is. A pass keeps the number of components and the row width. */
  ghost function OnePass(num: Numerics, xs: seq<Vector>, d: nat, minCovar: real, p: Params): (r: PassResult)
  {
    if |xs| > 0 && p.WellShaped(d) && (forall j :: 0 <= j < |xs| ==> |xs[j]| == d)
       && |p.weights| > 0 && NormalisesResponsibilities(num, |p.weights|)
    then
      var posts := Posteriors(num, p, xs);
      var s := PassStats(posts, p.means, xs, |p.weights|, d);
      PosteriorsAreDistributions(num, p, xs);
      PassStatsMass(posts, p.means, xs, |p.weights|, d);
      PassResult(MeanLogProb(s), MStep(s, |p.weights|, d, minCovar))
    else PassResult(0.0, p)
  }

  /** `OnePass` from the accumulators of its pass over a non-empty dataset. */
  lemma {:induction false} OnePassOfStats(num: Numerics, xs: seq<Vector>, d: nat, minCovar: real, p: Params, s: Stats)
    requires |xs| > 0 && p.WellShaped(d) && forall j :: 0 <= j < |xs| ==> |xs[j]| == d
    requires NormalisesResponsibilities(num, |p.weights|) && |p.weights| > 0
    requires s == PassStats(Posteriors(num, p, xs), p.means, xs, |p.weights|, d)
    ensures s.n > 0 && StatsShaped(s, |p.weights|, d) && NonNegative(s.accW)
    ensures OnePass(num, xs, d, minCovar, p) == PassResult(MeanLogProb(s), MStep(s, |p.weights|, d, minCovar))
  {
    PosteriorsAreDistributions(num, p, xs);
    PassStatsMass(Posteriors(num, p, xs), p.means, xs, |p.weights|, d);
  }

  /** `OnePass` as the pass function of `FitLoop`. */
  ghost function FitPass(num: Numerics, xs: seq<Vector>, d: nat, minCovar: real): Params -> PassResult
  {
    p => OnePass(num, xs, d, minCovar, p)
  }

  /** `FitLoop` with `OnePass` written in, as the `fit` method runs it. */
  ghost function FitRun(num: Numerics, xs: seq<Vector>, d: nat, minCovar: real, thresh: real,
                        p: Params, remaining: nat, lps: seq<real>): (Params, seq<real>)
    decreases remaining
  {
    if remaining == 0 then (p, lps)
    else
      var r := OnePass(num, xs, d, minCovar, p);
      var lps' := lps + [r.meanLogProb];
      if Converged(lps', thresh) then (p, lps')
      else FitRun(num, xs, d, minCovar, thresh, r.next, remaining - 1, lps')
  }

  /** One pass of `FitRun`: the pass's mean log-likelihood is appended, and
      the run stops on the rule or goes on from the re-estimate. */
  lemma {:induction false} FitRunStep(num: Numerics, xs: seq<Vector>, d: nat, minCovar: real, thresh: real,
                                      p: Params, remaining: nat, lps: seq<real>)
    requires remaining > 0
    ensures var r := OnePass(num, xs, d, minCovar, p);
      var lps' := lps + [r.meanLogProb];
      FitRun(num, xs, d, minCovar, thresh, p, remaining, lps)
        == if Converged(lps', thresh) then (p, lps')
           else FitRun(num, xs, d, minCovar, thresh, r.next, remaining - 1, lps')
  {
  }

  lemma {:induction false} FitRunIsFitLoop(num: Numerics, xs: seq<Vector>, d: nat, minCovar: real, thresh: real,
                                          p: Params, remaining: nat, lps: seq<real>)
    ensures FitRun(num, xs, d, minCovar, thresh, p, remaining, lps)
         == FitLoop(FitPass(num, xs, d, minCovar), p, remaining, lps, thresh)
    decreases remaining
  {
    if remaining > 0 {
      var r := OnePass(num, xs, d, minCovar, p);
      assert FitPass(num, xs, d, minCovar)(p) == r;
      var lps' := lps + [r.meanLogProb];
      if !Converged(lps', thresh) {
        FitRunIsFitLoop(num, xs, d, minCovar, thresh, r.next, remaining - 1, lps');
      }
    }
  }

  /** The convergence rule without `Abs`: at least four passes recorded, and
      the last mean log-likelihood strictly within `thresh` of the one before. */
  lemma ConvergedWithinThreshold(lps: seq<real>, thresh: real)
    ensures Converged(lps, thresh) <==>
              |lps| >= 4 && lps[|lps| - 2] - thresh < lps[|lps| - 1] < lps[|lps| - 2] + thresh
  {
  }

  /** The recorded mean, times the number of samples, is the pass's total
      log-likelihood. */
  lemma MeanLogProbTimesCount(s: Stats)
    requires s.n > 0
    ensures MeanLogProb(s) * s.n as real == s.logProb
  {
  }

  /** A pass keeps the number of components, and the row width of
      well-shaped parameters, on every input. */
  lemma OnePassKeepsShape(num: Numerics, xs: seq<Vector>, d: nat, minCovar: real, p: Params)
    ensures |OnePass(num, xs, d, minCovar, p).next.weights| == |p.weights|
    ensures p.WellShaped(d) ==> OnePass(num, xs, d, minCovar, p).next.WellShaped(d)
  {
  }

  /** The history of a training run: `lps` followed by one entry per pass,
      at least one pass when any is allowed, at most `remaining`, and fewer
      only when the last entry met the convergence rule. */
  lemma FitRunHistory(num: Numerics, xs: seq<Vector>, d: nat, minCovar: real, thresh: real,
                      p: Params, remaining: nat, lps: seq<real>)
    ensures var (_, h) := FitRun(num, xs, d, minCovar, thresh, p, remaining, lps);
      && |lps| <= |h| <= |lps| + remaining
      && h[..|lps|] == lps
      && (remaining > 0 ==> |h| > |lps|)
      && (|h| < |lps| + remaining ==> Converged(h, thresh))
  {
    FitRunIsFitLoop(num, xs, d, minCovar, thresh, p, remaining, lps);
    FitLoopHistory(FitPass(num, xs, d, minCovar), p, remaining, lps, thresh);
  }

  /** For the inputs `fit` admits, a pass keeps the number of components and
      the row width, and its re-estimate is `Normalised`. */
  lemma {:induction false} OnePassNormalises(num: Numerics, xs: seq<Vector>, d: nat, minCovar: real, p: Params)
    requires |xs| > 0 && p.WellShaped(d) && forall j :: 0 <= j < |xs| ==> |xs[j]| == d
    requires NormalisesResponsibilities(num, |p.weights|) && |p.weights| > 0
    ensures var q := OnePass(num, xs, d, minCovar, p).next;
      |q.weights| == |p.weights| && q.WellShaped(d) && Normalised(q, minCovar)
  {
    var posts := Posteriors(num, p, xs);
    var s := PassStats(posts, p.means, xs, |p.weights|, d);
    PosteriorsAreDistributions(num, p, xs);
    PassStatsMass(posts, p.means, xs, |p.weights|, d);
    MStepNormalises(s, |p.weights|, d, minCovar);
  }

  /** `fit` on a non-empty dataset with at least one pass ends with weights
      summing to one and every variance above `minCovar`, the converging pass
      included, since that pass keeps the re-estimate of the one before. */
  lemma {:induction false} FitEndsNormalised(num: Numerics, xs: seq<Vector>, d: nat, minCovar: real, p: Params,
                          nIter: nat, thresh: real)
    requires |xs| > 0 && p.WellShaped(d) && forall j :: 0 <= j < |xs| ==> |xs[j]| == d
    requires NormalisesResponsibilities(num, |p.weights|) && |p.weights| > 0
    requires nIter > 0
    ensures Normalised(FitLoop(FitPass(num, xs, d, minCovar), p, nIter, [], thresh).0, minCovar)
  {
    var k := |p.weights|;
    var step := FitPass(num, xs, d, minCovar);
    var inv := (q: Params) => |q.weights| == k && q.WellShaped(d);
    var good := (q: Params) => Normalised(q, minCovar);
    forall q | inv(q)
      ensures inv(step(q).next) && good(step(q).next)
    {
      OnePassNormalises(num, xs, d, minCovar, q);
    }
    FitLoopEndsInReestimate(step, p, nIter, [], thresh, inv, good);
  }

  // ---------------------------------------------------------------------
  // Mixture growth as a specification
  // ---------------------------------------------------------------------

  /** `np.argmax`: the first index of the largest weight. */
  function ArgMax(w: Vector): (c: nat)
    requires |w| > 0
    ensures c < |w|
    ensures forall j :: 0 <= j < |w| ==> w[j] <= w[c]
    ensures forall j :: 0 <= j < c ==> w[j] < w[c]
  {
    if |w| == 1 then 0
    else
      var best := ArgMax(w[..|w| - 1]);
      if w[|w| - 1] > w[best] then |w| - 1 else best
  }

  /** One round of `mixup`: the heaviest component `c` is appended twice, each
      copy with half its weight, its variance row and one of the perturbed
      means `m1`, `m2`; then row `c` is deleted. */
  function SplitHeaviest(p: Params, m1: Vector, m2: Vector): (q: Params)
    requires |p.weights| > 0 && |p.means| == |p.weights| == |p.covars|
    ensures |q.weights| == |p.weights| + 1 && |q.means| == |q.weights| == |q.covars|
  {
    var c := ArgMax(p.weights);
    var half := p.weights[c] / 2.0;
    Params(RemoveAt(p.weights + [half, half], c),
           RemoveAt(p.means + [m1, m2], c),
           RemoveAt(p.covars + [p.covars[c], p.covars[c]], c))
  }

  lemma {:induction false} RemoveAtAppend<T>(s: seq<T>, t: seq<T>, i: nat)
    requires i < |s|
    ensures RemoveAt(s + t, i) == RemoveAt(s, i) + t
  {
    assert (s + t)[..i] == s[..i];
    assert (s + t)[i + 1..] == s[i + 1..] + t;
  }

  /** Deleting row `i` of a matrix and appending two rows of the same width
      keeps every row that width. */
  lemma {:induction false} RemoveAtAppendShaped(m: Matrix, i: nat, u: Vector, v: Vector, d: nat)
    requires i < |m| && Shaped(m, |m|, d) && |u| == d && |v| == d
    ensures Shaped(RemoveAt(m, i) + [u, v], |m| + 1, d)
  {
    var r := RemoveAt(m, i) + [u, v];
    forall j | 0 <= j < |r|
      ensures |r[j]| == d
    {
      if j < i {
        assert r[j] == m[j];
      } else if j < |m| - 1 {
        assert r[j] == m[j + 1];
      }
    }
  }

  /** A split keeps every other row in its original order and appends the
      two children in place of row `c`. */
  lemma {:induction false} SplitHeaviestRows(p: Params, m1: Vector, m2: Vector)
    requires |p.weights| > 0 && |p.means| == |p.weights| == |p.covars|
    ensures var c := ArgMax(p.weights);
      var q := SplitHeaviest(p, m1, m2);
      && q.weights == RemoveAt(p.weights, c) + [p.weights[c] / 2.0, p.weights[c] / 2.0]
      && q.means == RemoveAt(p.means, c) + [m1, m2]
      && q.covars == RemoveAt(p.covars, c) + [p.covars[c], p.covars[c]]
  {
    var c := ArgMax(p.weights);
    var half := p.weights[c] / 2.0;
    RemoveAtAppend(p.weights, [half, half], c);
    RemoveAtAppend(p.means, [m1, m2], c);
    RemoveAtAppend(p.covars, [p.covars[c], p.covars[c]], c);
  }

  lemma {:induction false} SumTwo(half: real)
    ensures Sum([half, half]) == half + half
  {
    assert [half, half][1..] == [half];
    assert [half][1..] == [];
    assert Sum([half]) == half + Sum([]);
  }

  /** Replacing one weight by two halves of it keeps the total. */
  lemma {:induction false} SplitWeightSum(w: Vector, c: nat, half: real)
    requires c < |w| && half + half == w[c]
    ensures Sum(RemoveAt(w, c) + [half, half]) == Sum(w)
  {
    SumTwo(half);
    SumAppend(RemoveAt(w, c), [half, half]);
    SumRemoveAt(w, c);
  }

  /** A split keeps every other row in its original order, appends the two
      children, adds exactly one component, keeps the row length `d`, and
      leaves the total weight unchanged. */
  lemma {:induction false} SplitHeaviestSpec(p: Params, m1: Vector, m2: Vector, d: nat)
    requires |p.weights| > 0 && p.WellShaped(d) && |m1| == d && |m2| == d
    ensures var c := ArgMax(p.weights);
      var q := SplitHeaviest(p, m1, m2);
      && q.weights == RemoveAt(p.weights, c) + [p.weights[c] / 2.0, p.weights[c] / 2.0]
      && q.means == RemoveAt(p.means, c) + [m1, m2]
      && q.covars == RemoveAt(p.covars, c) + [p.covars[c], p.covars[c]]
      && |q.weights| == |p.weights| + 1
      && q.WellShaped(d)
      && Sum(q.weights) == Sum(p.weights)
  {
    var c := ArgMax(p.weights);
    SplitHeaviestRows(p, m1, m2);
    RemoveAtAppendShaped(p.means, c, m1, m2, d);
    RemoveAtAppendShaped(p.covars, c, p.covars[c], p.covars[c], d);
    SplitWeightSum(p.weights, c, p.weights[c] / 2.0);
  }

  /** The first `k` rounds of `mixup`, round `i` consuming the perturbed means
      `draws[2 * i]` and `draws[2 * i + 1]`. */
  function Mixups(p: Params, draws: seq<Vector>, k: nat): (q: Params)
    requires 2 * k <= |draws| && |p.means| == |p.weights| == |p.covars|
    requires k > 0 ==> |p.weights| > 0
    ensures |q.weights| == |p.weights| + k && |q.means| == |q.weights| == |q.covars|
    decreases k
  {
    if k == 0 then p
    else SplitHeaviest(Mixups(p, draws, k - 1), draws[2 * k - 2], draws[2 * k - 1])
  }

  /** Round `k + 1` splits the result of the first `k` rounds. */
  lemma {:induction false} MixupsNext(p: Params, draws: seq<Vector>, k: nat)
    requires 2 * k + 2 <= |draws| && |p.means| == |p.weights| == |p.covars| && |p.weights| > 0
    ensures Mixups(p, draws, k + 1) == SplitHeaviest(Mixups(p, draws, k), draws[2 * k], draws[2 * k + 1])
  {
  }

  /** `k` rounds add exactly `k` components, keep every row `d` wide and
      keep the total weight. */
  lemma {:induction false} MixupsSpec(p: Params, draws: seq<Vector>, k: nat, d: nat)
    requires 2 * k <= |draws| && p.WellShaped(d)
    requires forall j :: 0 <= j < |draws| ==> |draws[j]| == d
    requires k > 0 ==> |p.weights| > 0
    ensures var q := Mixups(p, draws, k);
      q.WellShaped(d) && |q.weights| == |p.weights| + k && Sum(q.weights) == Sum(p.weights)
    decreases k
  {
    if k > 0 {
      MixupsSpec(p, draws, k - 1, d);
      SplitHeaviestSpec(Mixups(p, draws, k - 1), draws[2 * k - 2], draws[2 * k - 1], d);
    }
  }

  /** A one-component mixture of weight 1 splits into two components of
      weight one half each. */
  lemma {:induction false} MixupOfSingleComponent(mean: Vector, covar: Vector, m1: Vector, m2: Vector)
    ensures var q := SplitHeaviest(Params([1.0], [mean], [covar]), m1, m2);
      q.weights == [0.5, 0.5] && q.means == [m1, m2] && q.covars == [covar, covar]
  {
  }

  /** The initial weights `np.ones(k) / k`. */
  function Uniform(k: nat): (w: Vector)
    ensures |w| == k
  {
    seq(k, _ requires k > 0 => 1.0 / k as real)
  }

  /** The initial weights of a mixture with at least one component sum to one. */
  lemma {:induction false} UniformSumsToOne(k: nat)
    requires k > 0
    ensures Sum(Uniform(k)) == 1.0
  {
    assert Uniform(k) == Fill(k, 1.0 / k as real);
    SumFill(k, 1.0 / k as real);
  }

  // ---------------------------------------------------------------------
  // The model object
  // ---------------------------------------------------------------------

  /** `GMM`: the configuration, the three parameter arrays, and the
      log-likelihood history of the most recent `fit`. */
  class Gmm {
    const nFeatures: nat
    const thresh: real
    const minCovar: real
    const nIter: nat
    var nComponents: nat
    var weights: Vector
    var means: Matrix
    var covars: Matrix
    var logProbs: seq<real>

    /** One weight, one mean row and one variance row per component, each
        row `nFeatures` wide. */
    ghost predicate Valid()
      reads this
    {
      |weights| == nComponents && Parameters().WellShaped(nFeatures)
    }

    function Parameters(): Params
      reads this
    {
      Params(weights, means, covars)
    }

    /** `GMM.__init__`: uniform weights, zero means, unit variances. */
    constructor (nFeatures: nat := 1, nComponents: nat := 1, thresh: real := 0.001,
                 minCovar: real := 0.001, nIter: nat := 1)
      ensures Valid()
      ensures this.nFeatures == nFeatures && this.nComponents == nComponents
      ensures this.thresh == thresh && this.minCovar == minCovar && this.nIter == nIter
      ensures weights == Uniform(nComponents)
      ensures means == Constant(nComponents, nFeatures, 0.0)
      ensures covars == Constant(nComponents, nFeatures, 1.0)
      ensures logProbs == []
      ensures nComponents > 0 ==> Sum(weights) == 1.0
    {
      this.nFeatures := nFeatures;
      this.nComponents := nComponents;
      this.thresh := thresh;
      this.minCovar := minCovar;
      this.nIter := nIter;
      weights := Uniform(nComponents);
      means := Constant(nComponents, nFeatures, 0.0);
      covars := Constant(nComponents, nFeatures, 1.0);
      logProbs := [];
      if nComponents > 0 {
        UniformSumsToOne(nComponents);
      }
    }

    /** `GMM.expectation` on the current parameters. */
    function Expectation(num: Numerics, x: Vector): (e: Posterior)
      reads this
      requires |means| == |weights| == |covars|
      ensures |e.resp| == |weights|
    {
      EStep(num, Parameters(), x)
    }

    /** `GMM.score` on the current parameters. */
    function Score(num: Numerics, x: Vector): (lp: real)
      reads this
      requires |means| == |weights| == |covars|
      ensures lp == Expectation(num, x).logProb
    {
      ScoreOf(num, Parameters(), x)
    }

    /** One round of `GMM.mixup`: the heaviest component is appended twice,
        with half its weight each, the perturbed means `m1` and `m2` and its
        own variances, and then deleted. */
    method SplitHeaviestComponent(m1: Vector, m2: Vector)
      requires Valid() && |weights| > 0 && |m1| == nFeatures && |m2| == nFeatures
      modifies this
      ensures Valid()
      ensures logProbs == old(logProbs)
      ensures nComponents == old(nComponents) + 1
      ensures Parameters() == SplitHeaviest(old(Parameters()), m1, m2)
    {
      var c := ArgMax(weights);
      var cWeight := weights[c];
      var cCovars := covars[c];
      var newWeights := weights + [cWeight / 2.0];
      var newMeans := means + [m1];
      var newCovars := covars + [cCovars];
      newWeights := newWeights + [cWeight / 2.0];
      newMeans := newMeans + [m2];
      newCovars := newCovars + [cCovars];
      assert newWeights == weights + [cWeight / 2.0, cWeight / 2.0];
      assert newMeans == means + [m1, m2];
      assert newCovars == covars + [cCovars, cCovars];
      SplitHeaviestSpec(Parameters(), m1, m2, nFeatures);
      weights, means, covars := RemoveAt(newWeights, c), RemoveAt(newMeans, c), RemoveAt(newCovars, c);
      nComponents := nComponents + 1;
    }

    /** `GMM.mixup`: `nNew` rounds of splitting the heaviest component, the
        perturbed means of round `i` being `draws[2 * i]` and `draws[2 * i + 1]`.
        Fails, changing nothing, when there is no component to split. */
    method Mixup(nNew: nat, draws: seq<Vector>) returns (ok: bool)
      requires Valid()
      requires |draws| == 2 * nNew && forall j :: 0 <= j < |draws| ==> |draws[j]| == nFeatures
      modifies this
      ensures Valid()
      ensures logProbs == old(logProbs)
      ensures ok <==> nNew == 0 || old(nComponents) > 0
      ensures ok ==> nComponents == old(nComponents) + nNew
      ensures ok ==> Parameters() == Mixups(old(Parameters()), draws, nNew)
      ensures !ok ==> nComponents == old(nComponents) && Parameters() == old(Parameters())
    {
      ghost var p0 := Parameters();
      var n := 0;
      while n < nNew
        invariant 0 <= n <= nNew
        invariant Valid()
        invariant logProbs == old(logProbs)
        invariant nComponents == old(nComponents) + n
        invariant |weights| == |p0.weights| + n && (n > 0 ==> |p0.weights| > 0)
        invariant Parameters() == Mixups(p0, draws, n)
      {
        if |weights| == 0 {
          // np.argmax of an empty array raises
          return false;
        }
        MixupsNext(p0, draws, n);
        SplitHeaviestComponent(draws[2 * n], draws[2 * n + 1]);
        n := n + 1;
      }
      return true;
    }

    /** The inner loop of `fit`: one expectation per sample, in order,
        accumulated against the parameters of the start of the pass. */
    method AccumulatePass(num: Numerics, xs: seq<Vector>) returns (s: Stats)
      requires Valid() && forall j :: 0 <= j < |xs| ==> |xs[j]| == nFeatures
      ensures s == PassStats(Posteriors(num, Parameters(), xs), means, xs, nComponents, nFeatures)
    {
      var logProb := 0.0;
      var n := 0;
      var accW := Fill(nComponents, 0.0);
      var accM := Constant(nComponents, nFeatures, 0.0);
      var accC := Constant(nComponents, nFeatures, 0.0);
      ghost var posts := Posteriors(num, Parameters(), xs);
      var j := 0;
      while j < |xs|
        invariant 0 <= j <= |xs|
        invariant Stats(logProb, n, accW, accM, accC) == PassStats(posts[..j], means, xs[..j], nComponents, nFeatures)
      {
        var x := xs[j];
        var e := Expectation(num, x);
        assert e == posts[j];
        PassStatsStep(posts, means, xs, nComponents, nFeatures, j);
        accW := VAdd(accW, e.resp);
        accM := MAdd(accM, Outer(e.resp, x));
        accC := MAdd(accC, WeightedSqDev(e.resp, x, means));
        logProb := logProb + e.logProb;
        n := n + 1;
        j := j + 1;
      }
      assert xs[..j] == xs;
      assert posts[..j] == posts;
      s := Stats(logProb, n, accW, accM, accC);
    }

    /** Pass `i` of `GMM.fit`: accumulate over `xs`, record the mean
        log-likelihood, then either stop on the convergence rule or install
        the M-step; the outcome is exactly `OnePass` from the current
        parameters. Fails, changing nothing, when there are no samples
        (`log_prob / n` divides by zero) or no components (`logsumexp` of an
        empty array raises). */
    method FitIteration(num: Numerics, xs: seq<Vector>, i: nat) returns (ok: bool, converged: bool)
      requires Valid() && |logProbs| == i
      requires forall j :: 0 <= j < |xs| ==> |xs[j]| == nFeatures
      requires NormalisesResponsibilities(num, nComponents)
      modifies this
      ensures Valid()
      ensures nComponents == old(nComponents)
      ensures ok <==> |xs| > 0 && nComponents > 0
      ensures !ok ==> Parameters() == old(Parameters()) && logProbs == old(logProbs)
      ensures ok ==>
        var r := OnePass(num, xs, nFeatures, minCovar, old(Parameters()));
        && logProbs == old(logProbs) + [r.meanLogProb]
        && converged == Converged(logProbs, thresh)
        && Parameters() == (if converged then old(Parameters()) else r.next)
    {
      if nComponents == 0 && |xs| > 0 {
        // logsumexp of the empty joint log-probabilities of the first sample
        return false, false;
      }
      ghost var p := Parameters();
      var s := AccumulatePass(num, xs);
      if s.n == 0 {
        // log_prob / n with n == 0
        return false, false;
      }
      OnePassOfStats(num, xs, nFeatures, minCovar, p, s);
      logProbs := logProbs + [s.logProb / s.n as real];
      if i > 2 && Abs(logProbs[|logProbs| - 1] - logProbs[|logProbs| - 2]) < thresh {
        return true, true;
      }
      var q := MStep(s, nComponents, nFeatures, minCovar);
      weights, means, covars := q.weights, q.means, q.covars;
      return true, false;
    }

    /** `GMM.fit`: up to `nIter` passes over the samples `xs`, each recording
        its mean log-likelihood in `logProbs`, stopping on the convergence
        rule before re-estimating, and otherwise replacing the parameters by
        the M-step; exactly `FitLoop` with `OnePass`. A pass over no samples
        or with no components raises: the call then fails, leaving the
        parameters as they were and `logProbs` empty. */
    method Fit(num: Numerics, xs: seq<Vector>) returns (ok: bool)
      requires Valid()
      requires forall j :: 0 <= j < |xs| ==> |xs[j]| == nFeatures
      requires NormalisesResponsibilities(num, nComponents)
      modifies this
      ensures Valid()
      ensures nComponents == old(nComponents)
      ensures ok <==> nIter == 0 || (|xs| > 0 && nComponents > 0)
      ensures !ok ==> Parameters() == old(Parameters()) && logProbs == []
      ensures ok ==>
        (Parameters(), logProbs) == FitRun(num, xs, nFeatures, minCovar, thresh, old(Parameters()), nIter, [])
    {
      logProbs := [];
      ghost var p0 := Parameters();
      ghost var runs := |xs| > 0 && nComponents > 0;
      var i := 0;
      while i < nIter
        invariant 0 <= i <= nIter && |logProbs| == i
        invariant Valid()
        invariant nComponents == old(nComponents)
        invariant i == 0 ==> Parameters() == p0 && logProbs == []
        invariant i > 0 ==> runs
        invariant FitRun(num, xs, nFeatures, minCovar, thresh, Parameters(), nIter - i, logProbs)
               == FitRun(num, xs, nFeatures, minCovar, thresh, p0, nIter, [])
      {
        ghost var p := Parameters();
        ghost var lps := logProbs;
        var passed, converged := FitIteration(num, xs, i);
        if !passed {
          return false;
        }
        FitRunStep(num, xs, nFeatures, minCovar, thresh, p, nIter - i, lps);
        if converged {
          break;
        }
        i := i + 1;
      }
      return true;
    }
  }
}
