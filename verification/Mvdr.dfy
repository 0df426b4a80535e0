/** MVDR beamforming in exact reals: the covariance accumulated over a run, the
    weights computed from it, and what is optimal about them. */
module Mvdr {
  import opened Vectors
  import opened GaussJordan
  import opened Solvers

  function Zeros(n: nat): Vector { seq(n, _ => 0.0) }

  /** m + sample * sample^T */
  function AddOuter(m: Matrix, sample: Vector): Matrix
    requires |m| == |sample| && forall i :: 0 <= i < |m| ==> |m[i]| == |sample|
  {
    seq(|m|, (i: nat) requires i < |m| => Axpy(m[i], sample[i], sample))
  }

  ghost predicate Channels(samples: seq<Vector>, n: nat) {
    forall k :: 0 <= k < |samples| ==> |samples[k]| == n
  }

  /** The sum of the outer products of all samples. */
  ghost function Gram(samples: seq<Vector>, n: nat): (m: Matrix)
    requires Channels(samples, n)
    ensures Square(m, n)
    decreases |samples|
  {
    if samples == [] then seq(n, _ => Zeros(n))
    else AddOuter(Gram(samples[..|samples| - 1], n), samples[|samples| - 1])
  }

  function Loaded(sums: Matrix, count: nat, loading: real): Matrix
    requires count > 0 && forall i :: 0 <= i < |sums| ==> |sums[i]| == |sums|
  {
    seq(|sums|, (i: nat) requires i < |sums| =>
      seq(|sums|, (j: nat) requires j < |sums| => sums[i][j] / count as real + if i == j then loading else 0.0))
  }

  /** The covariance of all samples of the run so far, diagonally loaded. */
  ghost function Covariance(samples: seq<Vector>, n: nat, loading: real): (m: Matrix)
    requires Channels(samples, n) && |samples| > 0
    ensures Square(m, n)
  {
    Loaded(Gram(samples, n), |samples|, loading)
  }

  datatype FrameError = EmptyFrame | UnevenChannels | ChannelsChanged

  datatype Estimate = Estimate(covariance: Matrix, degraded: bool) | Rejected(error: FrameError)

  /** _CovarianceAccumulatorState: sums of outer products over the whole run. */
  class CovarianceAccumulator {
    const loading: real
    var sums: Matrix
    var sampleCount: nat
    var channelCount: nat
    ghost var samples: seq<Vector>

    ghost predicate Valid()
      reads this
    {
      && sampleCount == |samples| && (channelCount == 0 <==> samples == [])
      && Channels(samples, channelCount)
      && (channelCount > 0 ==> sums == Gram(samples, channelCount))
    }

    constructor (loading: real)
      ensures Valid() && samples == [] && this.loading == loading
    {
      this.loading := loading;
      sums, sampleCount, channelCount, samples := [], 0, 0, [];
    }

    /** One sample's outer product, entry by entry. */
    static method AddSample(sums: Matrix, item: Vector) returns (r: Matrix)
      requires Square(sums, |item|)
      ensures r == AddOuter(sums, item)
    {
      r := sums;
      var n := |item|;
      for row := 0 to n
        invariant Square(r, n)
        invariant forall i :: 0 <= i < n ==> r[i] == if i < row then Axpy(sums[i], item[i], item) else sums[i]
      {
        for column := 0 to n
          invariant Square(r, n)
          invariant forall i :: 0 <= i < n && i != row ==>
                    r[i] == if i < row then Axpy(sums[i], item[i], item) else sums[i]
          invariant forall j :: 0 <= j < n ==>
                    r[row][j] == if j < column then sums[row][j] + item[row] * item[j] else sums[row][j]
        {
          r := r[row := r[row][column := r[row][column] + item[row] * item[column]]];
        }
        forall j | 0 <= j < n ensures r[row][j] == Axpy(sums[row], item[row], item)[j] {}
        assert r[row] == Axpy(sums[row], item[row], item);
      }
    }

    /** The samples of one frame, one after the other. */
    static method AddFrame(sums: Matrix, frame: seq<Vector>, n: nat, ghost samples: seq<Vector>) returns (r: Matrix)
      requires Channels(samples, n) && Channels(frame, n) && sums == Gram(samples, n)
      ensures Channels(samples + frame, n) && r == Gram(samples + frame, n)
    {
      r := sums;
      assert samples + frame[..0] == samples && frame[..|frame|] == frame;
      for k := 0 to |frame|
        invariant Channels(samples + frame[..k], n) && r == Gram(samples + frame[..k], n)
      {
        GramSnoc(samples, frame, k, n);
        r := AddSample(r, frame[k]);
      }
    }

    /** A frame is accepted exactly when its items have one positive channel count,
        the run's; the estimate is then the covariance of every sample of the run. */
    method Process(frame: seq<Vector>) returns (r: Estimate)
      requires Valid()
      modifies this
      ensures Valid()
      ensures r.Estimate? <==>
              frame != [] && |frame[0]| > 0 && Channels(frame, |frame[0]|) &&
                (old(samples) == [] || |frame[0]| == old(channelCount))
      ensures r.Rejected? ==>
                r.error == if frame == [] then EmptyFrame
                           else if |frame[0]| == 0 || !Channels(frame, |frame[0]|) then UnevenChannels
                           else ChannelsChanged
      ensures samples == if r.Estimate? then old(samples) + frame else old(samples)
      ensures r.Estimate? ==> channelCount == |frame[0]| && r.covariance == Covariance(samples, channelCount, loading)
      ensures r.Estimate? ==> (r.degraded <==> |samples| < channelCount * channelCount)
    {
      if frame == [] { return Rejected(EmptyFrame); }
      var n := |frame[0]|;
      if n == 0 || exists k :: 0 <= k < |frame| && |frame[k]| != n { return Rejected(UnevenChannels); }
      if channelCount == 0 {
        channelCount := n;
        sums := seq(n, _ => Zeros(n));
      } else if channelCount != n {
        return Rejected(ChannelsChanged);
      }
      assert samples == [] ==> sums == Gram(samples, n);
      sums := AddFrame(sums, frame, n, samples);
      sampleCount := sampleCount + |frame|;
      samples := samples + frame;
      r := Estimate(Loaded(sums, sampleCount, loading), sampleCount < n * n);
    }
  }

  lemma GramSnoc(samples: seq<Vector>, frame: seq<Vector>, k: nat, n: nat)
    requires Channels(samples, n) && Channels(frame, n) && k < |frame|
    ensures Channels(samples + frame[..k + 1], n)
    ensures Gram(samples + frame[..k + 1], n) == AddOuter(Gram(samples + frame[..k], n), frame[k])
  {
    assert (samples + frame[..k + 1])[..|samples| + k] == samples + frame[..k];
  }

  /** The native order of summation: one entry over all samples of the frame. */
  method EntryNative(start: real, frame: seq<Vector>, row: nat, column: nat, n: nat, ghost samples: seq<Vector>)
    returns (entry: real)
    requires Channels(samples, n) && Channels(frame, n) && row < n && column < n &&
             start == Gram(samples, n)[row][column]
    ensures Channels(samples + frame, n) && entry == Gram(samples + frame, n)[row][column]
  {
    entry := start;
    assert samples + frame[..0] == samples && frame[..|frame|] == frame;
    for sample := 0 to |frame|
      invariant Channels(samples + frame[..sample], n)
      invariant entry == Gram(samples + frame[..sample], n)[row][column]
    {
      GramSnoc(samples, frame, sample, n);
      entry := entry + frame[sample][row] * frame[sample][column];
    }
  }

  /** The covariance loop of the native runtime arrives at the same sums. */
  method AccumulateNative(sums: Matrix, frame: seq<Vector>, n: nat, ghost samples: seq<Vector>) returns (r: Matrix)
    requires Channels(samples, n) && Channels(frame, n) && sums == Gram(samples, n)
    ensures Channels(samples + frame, n) && r == Gram(samples + frame, n)
  {
    r := [];
    ghost var whole := Gram(samples + frame, n);
    for row := 0 to n
      invariant |r| == row && forall i :: 0 <= i < row ==> r[i] == whole[i]
    {
      var sumsRow: Vector := [];
      for column := 0 to n
        invariant |sumsRow| == column && forall j :: 0 <= j < column ==> sumsRow[j] == whole[row][j]
      {
        var entry := EntryNative(sums[row][column], frame, row, column, n, samples);
        sumsRow := sumsRow + [entry];
      }
      assert sumsRow == whole[row];
      r := r + [sumsRow];
    }
  }

  // ---------------------------------------------------------------- weights

  function WeightsOf(covariance: Matrix, steering: Vector): Result<Vector>
    requires Square(covariance, |steering|)
  {
    var solved := Solution(covariance, steering);
    if !solved.Ok? then solved
    else
      var denominator := Dot(steering, solved.value);
      if Abs(denominator) <= TOLERANCE then ZeroDenominator else Ok(Over(solved.value, denominator))
  }

  /** What an answer says about covariance and steering vector: it is refused when the
      covariance is singular up to the tolerance; otherwise exactly one x solves
      covariance * x == steering, and the weights are x over steering . x, which must not be
      zero up to the tolerance. */
  ghost predicate WeightsExplained(covariance: Matrix, steering: Vector, r: Result<Vector>)
    requires Square(covariance, |steering|)
  {
    match r
    case Singular => Explained(covariance, steering, Singular)
    case ShapeMismatch => false
    case _ => exists x: Vector :: OnlySolution(covariance, steering, x) && IsScaled(steering, x, r)
  }

  ghost predicate IsScaled(steering: Vector, x: Vector, r: Result<Vector>)
    requires |x| == |steering|
  {
    var d := Dot(steering, x);
    r == if -0.000000000001 <= d <= 0.000000000001 then ZeroDenominator else Ok(Over(x, d))
  }

  lemma WeightsAreExplained(covariance: Matrix, steering: Vector)
    requires Square(covariance, |steering|)
    ensures WeightsExplained(covariance, steering, WeightsOf(covariance, steering))
  {
    SolutionIsExplained(covariance, steering);
    var solved := Solution(covariance, steering);
    if solved.Ok? {
      assert OnlySolution(covariance, steering, solved.value);
      assert IsScaled(steering, solved.value, WeightsOf(covariance, steering));
    }
  }

  /** No weights for want of a denominator: exactly when the only solution is orthogonal to
      the steering vector up to the tolerance. */
  lemma ZeroDenominatorIff(covariance: Matrix, steering: Vector)
    requires Square(covariance, |steering|)
    ensures WeightsOf(covariance, steering).ZeroDenominator? <==>
            Solution(covariance, steering).Ok? &&
            exists x: Vector :: (OnlySolution(covariance, steering, x) &&
                                 -0.000000000001 <= Dot(steering, x) <= 0.000000000001)
  {
    SolutionIsExplained(covariance, steering);
    if Solution(covariance, steering).Ok? {
      assert OnlySolution(covariance, steering, Solution(covariance, steering).value);
    }
  }

  /** The solution divided by its product with the steering vector. */
  method Scale(steering: Vector, x: Vector) returns (r: Result<Vector>)
    requires |x| == |steering|
    ensures r == if Abs(Dot(steering, x)) <= TOLERANCE then ZeroDenominator else Ok(Over(x, Dot(steering, x)))
  {
    var denominator := 0.0;
    for i := 0 to |steering|
      invariant denominator == Dot(steering[..i], x[..i])
    {
      assert steering[..i + 1][..i] == steering[..i] && x[..i + 1][..i] == x[..i];
      denominator := denominator + steering[i] * x[i];
    }
    assert steering[..|steering|] == steering && x[..|steering|] == x;
    if Abs(denominator) <= TOLERANCE { return ZeroDenominator; }
    var weights: Vector := [];
    for i := 0 to |steering|
      invariant |weights| == i && forall j :: 0 <= j < i ==> weights[j] == x[j] / denominator
    {
      weights := weights + [x[i] / denominator];
    }
    assert weights == Over(x, denominator);
    r := Ok(weights);
  }

  /** mvdr_weights_operation */
  method MvdrWeights(covariance: Matrix, steering: Vector) returns (r: Result<Vector>)
    ensures if |covariance| > 0 && Square(covariance, |steering|) then r == WeightsOf(covariance, steering)
            else r == ShapeMismatch
    ensures |covariance| > 0 && Square(covariance, |steering|) ==> WeightsExplained(covariance, steering, r)
  {
    if |covariance| == 0 || |covariance| != |steering| ||
       exists i :: 0 <= i < |covariance| && |covariance[i]| != |steering| {
      return ShapeMismatch;
    }
    WeightsAreExplained(covariance, steering);
    var solved := Solve(covariance, steering);
    if !solved.Ok? { return solved; }
    r := Scale(steering, solved.value);
  }

  // -------------------------------------------------------------- optimality

  /** The power v^T R u. */
  function Power(r: Matrix, v: Vector, u: Vector): real
    requires |v| == |u| == |r| && forall i :: 0 <= i < |r| ==> |r[i]| == |u|
  {
    Dot(v, Mul(r, u))
  }

  /** The sum over all samples of (v . sample) * (u . sample). */
  ghost function Correlation(samples: seq<Vector>, n: nat, v: Vector, u: Vector): real
    requires Channels(samples, n) && |v| == |u| == n
    decreases |samples|
  {
    if samples == [] then 0.0
    else
      var last := samples[|samples| - 1];
      Correlation(samples[..|samples| - 1], n, v, u) + Times(Dot(last, u), Dot(v, last))
  }

  lemma {:induction false} DotZeros(n: nat, u: Vector)
    requires |u| == n
    ensures Dot(Zeros(n), u) == 0.0 && Dot(u, Zeros(n)) == 0.0
  {
    if n > 0 {
      DotZeros(n - 1, u[..n - 1]);
      assert Zeros(n)[..n - 1] == Zeros(n - 1);
    }
  }

  lemma OuterEntry(row: Vector, x: real, sample: Vector, u: Vector)
    requires |row| == |sample| == |u|
    ensures Dot(Axpy(row, x, sample), u) == Dot(row, u) + Times(Dot(sample, u), x)
  {
    DotAxpy(row, x, sample, u);
  }

  lemma OuterImage(m: Matrix, sample: Vector, u: Vector)
    requires Square(m, |sample|) && |u| == |sample|
    ensures Mul(AddOuter(m, sample), u) == Axpy(Mul(m, u), Dot(sample, u), sample)
  {
    forall i | 0 <= i < |m| ensures Mul(AddOuter(m, sample), u)[i] == Axpy(Mul(m, u), Dot(sample, u), sample)[i] {
      OuterEntry(m[i], sample[i], sample, u);
    }
  }

  /** Adding an outer product adds one correlation term. */
  lemma OuterPower(m: Matrix, sample: Vector, v: Vector, u: Vector)
    requires Square(m, |sample|) && |v| == |u| == |sample|
    ensures Power(AddOuter(m, sample), v, u) == Power(m, v, u) + Times(Dot(sample, u), Dot(v, sample))
  {
    OuterImage(m, sample, u);
    DotAxpyRight(v, Mul(m, u), Dot(sample, u), sample);
  }

  lemma {:induction false} GramPower(samples: seq<Vector>, n: nat, v: Vector, u: Vector)
    requires Channels(samples, n) && |v| == |u| == n
    ensures Power(Gram(samples, n), v, u) == Correlation(samples, n, v, u)
    decreases |samples|
  {
    if samples == [] {
      forall i | 0 <= i < n ensures Mul(Gram(samples, n), u)[i] == Zeros(n)[i] { DotZeros(n, u); }
      assert Mul(Gram(samples, n), u) == Zeros(n);
      DotZeros(n, v);
    } else {
      var before, last := samples[..|samples| - 1], samples[|samples| - 1];
      GramPower(before, n, v, u);
      OuterPower(Gram(before, n), last, v, u);
    }
  }

  function UnitVector(n: nat, i: nat): Vector { seq(n, (j: nat) => if j == i then 1.0 else 0.0) }

  lemma LoadedIs(sums: Matrix, count: nat, loading: real, i: nat)
    requires count > 0 && Square(sums, |sums|) && i < |sums|
    ensures Loaded(sums, count, loading)[i] == Axpy(Over(sums[i], count as real), loading, UnitVector(|sums|, i))
  {
    forall j | 0 <= j < |sums|
      ensures Loaded(sums, count, loading)[i][j] ==
              Axpy(Over(sums[i], count as real), loading, UnitVector(|sums|, i))[j]
    {
    }
  }

  lemma LoadedRow(sums: Matrix, count: nat, loading: real, i: nat, u: Vector)
    requires count > 0 && Square(sums, |u|) && i < |u|
    ensures Dot(Loaded(sums, count, loading)[i], u) == Dot(sums[i], u) / count as real + Times(loading, u[i])
  {
    LoadedIs(sums, count, loading, i);
    DotAxpy(Over(sums[i], count as real), loading, UnitVector(|u|, i), u);
    DotOver(sums[i], count as real, u);
    DotUnit(UnitVector(|u|, i), i, u);
  }

  lemma LoadedImage(sums: Matrix, count: nat, loading: real, u: Vector)
    requires count > 0 && Square(sums, |u|)
    ensures Mul(Loaded(sums, count, loading), u) == Axpy(Over(Mul(sums, u), count as real), loading, u)
  {
    forall i | 0 <= i < |u|
      ensures Mul(Loaded(sums, count, loading), u)[i] == Axpy(Over(Mul(sums, u), count as real), loading, u)[i]
    {
      LoadedRow(sums, count, loading, i, u);
    }
  }

  /** The power of the loaded covariance, as a sum over the samples: it is symmetric. */
  lemma CovariancePower(samples: seq<Vector>, n: nat, loading: real, v: Vector, u: Vector)
    requires Channels(samples, n) && |samples| > 0 && |v| == |u| == n
    ensures Power(Covariance(samples, n, loading), v, u) ==
            Correlation(samples, n, v, u) / |samples| as real + Times(loading, Dot(v, u))
  {
    var g := Gram(samples, n);
    LoadedImage(g, |samples|, loading, u);
    DotAxpyRight(v, Over(Mul(g, u), |samples| as real), loading, u);
    DotOverRight(v, Mul(g, u), |samples| as real);
    GramPower(samples, n, v, u);
  }

  lemma TimesCommutes(x: real, y: real)
    ensures Times(x, y) == Times(y, x)
    ensures Times(x, x) >= 0.0
  {
  }

  lemma {:induction false} CorrelationSymmetric(samples: seq<Vector>, n: nat, v: Vector, u: Vector)
    requires Channels(samples, n) && |v| == |u| == n
    ensures Correlation(samples, n, v, u) == Correlation(samples, n, u, v)
    decreases |samples|
  {
    if samples != [] {
      var last := samples[|samples| - 1];
      CorrelationSymmetric(samples[..|samples| - 1], n, v, u);
      DotCommutes(last, u);
      DotCommutes(last, v);
      TimesCommutes(Dot(last, u), Dot(v, last));
    }
  }

  lemma {:induction false} CorrelationPositive(samples: seq<Vector>, n: nat, u: Vector)
    requires Channels(samples, n) && |u| == n
    ensures Correlation(samples, n, u, u) >= 0.0
    decreases |samples|
  {
    if samples != [] {
      var last := samples[|samples| - 1];
      CorrelationPositive(samples[..|samples| - 1], n, u);
      DotCommutes(last, u);
      TimesCommutes(Dot(last, u), Dot(last, u));
    }
  }

  lemma {:induction false} DotSelf(u: Vector)
    ensures Dot(u, u) >= 0.0
    decreases |u|
  {
    if u != [] {
      DotSelf(u[..|u| - 1]);
      TimesCommutes(u[|u| - 1], u[|u| - 1]);
    }
  }

  lemma ScaleSigns(x: real, count: real, loading: real, y: real)
    requires x >= 0.0 && count > 0.0 && loading >= 0.0 && y >= 0.0
    ensures x / count + Times(loading, y) >= 0.0
  {
    assert loading * y >= 0.0;
    assert x / count >= 0.0;
  }

  /** The loaded covariance of any samples is symmetric and positive semidefinite. */
  lemma CovarianceForm(samples: seq<Vector>, n: nat, loading: real, v: Vector, u: Vector)
    requires Channels(samples, n) && |samples| > 0 && loading >= 0.0 && |v| == |u| == n
    ensures Power(Covariance(samples, n, loading), v, u) == Power(Covariance(samples, n, loading), u, v)
    ensures Power(Covariance(samples, n, loading), u, u) >= 0.0
  {
    CovariancePower(samples, n, loading, v, u);
    CovariancePower(samples, n, loading, u, v);
    CovariancePower(samples, n, loading, u, u);
    CorrelationSymmetric(samples, n, v, u);
    DotCommutes(v, u);
    CorrelationPositive(samples, n, u);
    DotSelf(u);
    ScaleSigns(Correlation(samples, n, u, u), |samples| as real, loading, Dot(u, u));
  }

  lemma PowerDifference(r: Matrix, v: Vector, w: Vector, u: Vector)
    requires Square(r, |u|) && |v| == |w| == |u|
    ensures Power(r, Axpy(v, -1.0, w), u) == Power(r, v, u) - Power(r, w, u)
  {
    DotAxpy(v, -1.0, w, Mul(r, u));
  }

  /** Weights that were computed pass the steering vector undistorted and map to a
      multiple of it. */
  lemma WeightsSolve(r: Matrix, steering: Vector)
    requires Square(r, |steering|) && WeightsOf(r, steering).Ok?
    ensures var w, d := WeightsOf(r, steering).value, Dot(steering, Solution(r, steering).value);
            && d != 0.0 && |w| == |steering|
            && Dot(steering, w) == 1.0
            && Mul(r, w) == Over(steering, d)
  {
    var x := Solution(r, steering).value;
    var d := Dot(steering, x);
    UniqueSolution(r, steering, x);
    DotOverRight(steering, x, d);
    SelfQuotient(d);
    forall i | 0 <= i < |r| ensures Mul(r, Over(x, d))[i] == Over(steering, d)[i] {
      DotOverRight(r[i], x, d);
      assert Mul(r, x)[i] == steering[i];
    }
  }

  /** MVDR optimality: whatever samples the run accumulated, the weights pass the
      steering direction with gain 1 and no other such weights have less power. */
  lemma WeightsAreOptimal(samples: seq<Vector>, n: nat, loading: real, steering: Vector, v: Vector)
    requires Channels(samples, n) && |samples| > 0 && loading >= 0.0 && |steering| == |v| == n
    requires WeightsOf(Covariance(samples, n, loading), steering).Ok?
    requires Dot(steering, v) == 1.0
    ensures var r := Covariance(samples, n, loading);
            var w := WeightsOf(r, steering).value;
            && |w| == n && Dot(steering, w) == 1.0
            && Power(r, w, w) <= Power(r, v, v)
  {
    var r := Covariance(samples, n, loading);
    var w, d := WeightsOf(r, steering).value, Dot(steering, Solution(r, steering).value);
    WeightsSolve(r, steering);
    DotOverRight(v, steering, d);
    DotOverRight(w, steering, d);
    DotCommutes(v, steering);
    DotCommutes(w, steering);
    assert Power(r, v, w) == Power(r, w, w);
    var e := Axpy(v, -1.0, w);
    PowerDifference(r, v, w, e);
    PowerDifference(r, v, w, v);
    PowerDifference(r, v, w, w);
    CovarianceForm(samples, n, loading, v, e);
    CovarianceForm(samples, n, loading, w, e);
    CovarianceForm(samples, n, loading, v, w);
  }
}
