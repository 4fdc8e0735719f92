/** The blur-weight generators of config.c and `config_get_weights`, over
    exact reals. Each generator fills a fresh array with raw weights while
    summing them, then divides every weight by the sum when the sum is
    positive. `expf` is an oracle parameter. */
module Weights {
  import opened Support

  // ------------------------------------------------------------ normalising

  /** Every weight divided by d. */
  function Divided(s: seq<real>, d: real): (r: seq<real>)
    requires d != 0.0
    ensures |r| == |s|
  {
    seq(|s|, i requires 0 <= i < |s| => s[i] / d)
  }

  /** The raw weights after the normalising loop `if (sum > 0) weights[i] /= sum`. */
  function Normalized(raw: seq<real>): (w: seq<real>)
    ensures |w| == |raw|
  {
    if Sum(raw) > 0.0 then Divided(raw, Sum(raw)) else raw
  }

  lemma SumAppend(s: seq<real>, x: real)
    ensures Sum(s + [x]) == Sum(s) + x
  {
    assert (s + [x])[..|s|] == s;
  }

  lemma {:induction false} SumDivided(s: seq<real>, d: real)
    requires d != 0.0
    ensures Sum(Divided(s, d)) == Sum(s) / d
  {
    if |s| > 0 {
      var n := |s| - 1;
      assert Divided(s, d)[..n] == Divided(s[..n], d);
      SumDivided(s[..n], d);
    }
  }

  /** Normalised weights sum to 1 whenever the raw sum is positive, and keep
      the proportions of the raw weights. */
  lemma NormalizedSumsToOne(raw: seq<real>)
    requires Sum(raw) > 0.0
    ensures Sum(Normalized(raw)) == 1.0
    ensures forall i | 0 <= i < |raw| :: Normalized(raw)[i] * Sum(raw) == raw[i]
  {
    var s := Sum(raw);
    SumDivided(raw, s);
    assert Normalized(raw) == Divided(raw, s);
    assert s / s == 1.0;
    forall i | 0 <= i < |raw|
      ensures Normalized(raw)[i] * s == raw[i]
    {
      assert Normalized(raw)[i] == raw[i] / s;
    }
  }

  lemma SumPrefix(s: seq<real>, i: nat)
    requires i < |s|
    ensures Sum(s[..i + 1]) == Sum(s[..i]) + s[i]
  {
    assert s[..i + 1][..i] == s[..i];
  }

  /** A sum of positive weights is positive. */
  lemma {:induction false} SumOfPositive(s: seq<real>)
    requires |s| > 0 && forall i | 0 <= i < |s| :: s[i] > 0.0
    ensures Sum(s) > 0.0
  {
    if |s| > 1 {
      SumOfPositive(s[..|s| - 1]);
    }
  }

  /** A sum of non-negative weights is at least each of them. */
  lemma {:induction false} SumAtLeastEntry(s: seq<real>, j: nat)
    requires j < |s| && forall i | 0 <= i < |s| :: s[i] >= 0.0
    ensures Sum(s) >= s[j]
  {
    var n := |s| - 1;
    if j < n {
      SumAtLeastEntry(s[..n], j);
    } else {
      SumNonNegative(s[..n]);
    }
  }

  lemma {:induction false} SumNonNegative(s: seq<real>)
    requires forall i | 0 <= i < |s| :: s[i] >= 0.0
    ensures Sum(s) >= 0.0
  {
    if |s| > 0 {
      SumNonNegative(s[..|s| - 1]);
    }
  }

  /** The normalising loop shared by every generator: with `sum` the sum of
      the weights, each is divided by it when it is positive. */
  method NormalizeInPlace(weights: array<real>, sum: real)
    requires sum == Sum(weights[..])
    modifies weights
    ensures weights[..] == Normalized(old(weights[..]))
  {
    if sum > 0.0 {
      ghost var raw := weights[..];
      for i := 0 to weights.Length
        invariant weights[..i] == Divided(raw, sum)[..i]
        invariant weights[i..] == raw[i..]
      {
        assert weights[i] == raw[i];
        weights[i] := weights[i] / sum;
        assert weights[..i + 1] == weights[..i] + [weights[i]];
      }
      assert weights[..] == weights[..weights.Length];
    }
  }

  // ------------------------------------------------------------------ equal

  /** `generate_equal_weights`: every weight is 1 / count. */
  function EqualWeights(count: nat): (w: seq<real>)
    requires count > 0
    ensures |w| == count
  {
    seq(count, i => 1.0 / count as real)
  }

  lemma {:induction false} SumConstant(n: nat, c: real)
    ensures Sum(seq(n, i => c)) == n as real * c
  {
    if n > 0 {
      assert seq(n, i => c)[..n - 1] == seq(n - 1, i => c);
      SumConstant(n - 1, c);
    }
  }

  /** Equal weights sum to 1, and they are what normalising count equal
      raw weights gives. */
  lemma EqualWeightsSumToOne(count: nat)
    requires count > 0
    ensures Sum(EqualWeights(count)) == 1.0
    ensures EqualWeights(count) == Normalized(seq(count, i => 1.0))
  {
    SumConstant(count, 1.0 / count as real);
    SumConstant(count, 1.0);
  }

  method GenerateEqualWeights(count: nat) returns (w: seq<real>)
    requires count > 0
    ensures w == EqualWeights(count)
  {
    var weights := new real[count];
    var weight := 1.0 / count as real;
    for i := 0 to count
      invariant forall j | 0 <= j < i :: weights[j] == weight
    {
      weights[i] := weight;
    }
    w := weights[..];
  }

  // ----------------------------------------------------------------- linear

  /** The raw weights of `generate_linear_weights`: i + 1 ascending,
      count - i descending. */
  function LinearRaw(count: nat, ascending: bool): (w: seq<real>)
    ensures |w| == count
  {
    seq(count, i requires 0 <= i < count => if ascending then (i + 1) as real else (count - i) as real)
  }

  /** The ascending weights sum to count (count + 1) / 2, the descending ones
      are the ascending ones reversed, and both normalise to a sum of 1. */
  lemma {:induction false} LinearRawSum(count: nat)
    ensures Sum(LinearRaw(count, true)) == (count * (count + 1) / 2) as real
  {
    if count > 0 {
      assert LinearRaw(count, true)[..count - 1] == LinearRaw(count - 1, true);
      LinearRawSum(count - 1);
      assert count * (count + 1) / 2 == (count - 1) * count / 2 + count by {
        assert count * (count + 1) == (count - 1) * count + 2 * count;
      }
    }
  }

  lemma LinearDescendingIsReversed(count: nat)
    ensures forall i | 0 <= i < count ::
      LinearRaw(count, false)[i] == LinearRaw(count, true)[count - 1 - i]
  {
  }

  lemma LinearWeightsSumToOne(count: nat, ascending: bool)
    requires count > 0
    ensures Sum(Normalized(LinearRaw(count, ascending))) == 1.0
  {
    SumOfPositive(LinearRaw(count, ascending));
    NormalizedSumsToOne(LinearRaw(count, ascending));
  }

  /** Ascending weights grow strictly, descending ones shrink strictly. */
  lemma LinearIsMonotone(count: nat, ascending: bool, i: nat)
    requires i + 1 < count
    ensures var w := Normalized(LinearRaw(count, ascending));
      if ascending then w[i] < w[i + 1] else w[i] > w[i + 1]
  {
    var raw := LinearRaw(count, ascending);
    SumOfPositive(raw);
    NormalizedSumsToOne(raw);
    var s := Sum(raw);
    var w := Normalized(raw);
    assert w[i] == raw[i] / s && w[i + 1] == raw[i + 1] / s;
    if ascending {
      assert raw[i] < raw[i + 1];
    } else {
      assert raw[i] > raw[i + 1];
    }
  }

  method GenerateLinearWeights(count: nat, ascending: bool) returns (w: seq<real>)
    ensures w == Normalized(LinearRaw(count, ascending))
  {
    ghost var raw := LinearRaw(count, ascending);
    var weights := new real[count];
    var sum := 0.0;
    for i := 0 to count
      invariant forall j | 0 <= j < i :: weights[j] == raw[j]
      invariant sum == Sum(raw[..i])
    {
      weights[i] := if ascending then (i + 1) as real else (count - i) as real;
      sum := sum + weights[i];
      SumPrefix(raw, i);
    }
    assert weights[..] == raw && raw[..count] == raw;
    NormalizeInPlace(weights, sum);
    w := weights[..];
  }

  // ---------------------------------------------------------------- pyramid

  /** The raw weights of `generate_pyramid_weights`: i + 1 up to and
      including half = count / 2, count - i after. */
  function PyramidRaw(count: nat): (w: seq<real>)
    ensures |w| == count
  {
    seq(count, i requires 0 <= i < count => if i <= count / 2 then (i + 1) as real else (count - i) as real)
  }

  lemma PyramidWeightsSumToOne(count: nat)
    requires count > 0
    ensures Sum(Normalized(PyramidRaw(count))) == 1.0
  {
    SumOfPositive(PyramidRaw(count));
    NormalizedSumsToOne(PyramidRaw(count));
  }

  /** For an odd count the pyramid is symmetric around its peak. */
  lemma PyramidOddIsSymmetric(count: nat)
    requires count % 2 == 1
    ensures forall i | 0 <= i < count :: PyramidRaw(count)[i] == PyramidRaw(count)[count - 1 - i]
  {
  }

  /** For an even count 2m the peak m + 1 sits at index m and its mirror
      index m - 1 holds m: the pyramid leans right, e.g. 1, 2, 3, 1 for four
      frames. */
  lemma PyramidEvenLeansRight(m: nat)
    requires m > 0
    ensures PyramidRaw(2 * m)[m] == (m + 1) as real
    ensures PyramidRaw(2 * m)[m - 1] == m as real
    ensures PyramidRaw(4) == [1.0, 2.0, 3.0, 1.0]
  {
  }

  method GeneratePyramidWeights(count: nat) returns (w: seq<real>)
    ensures w == Normalized(PyramidRaw(count))
  {
    ghost var raw := PyramidRaw(count);
    var weights := new real[count];
    var half := count / 2;
    var sum := 0.0;
    for i := 0 to count
      invariant forall j | 0 <= j < i :: weights[j] == raw[j]
      invariant sum == Sum(raw[..i])
    {
      if i <= half {
        weights[i] := (i + 1) as real;
      } else {
        weights[i] := (count - i) as real;
      }
      sum := sum + weights[i];
      SumPrefix(raw, i);
    }
    assert weights[..] == raw && raw[..count] == raw;
    NormalizeInPlace(weights, sum);
    w := weights[..];
  }

  // ------------------------------------------------------------------ vegas

  function Abs(x: real): real { if x < 0.0 then -x else x }

  /** The raw weights of `generate_vegas_weights`: with t = i / (count - 1),
      1 - |2t - 1|, a tent that is 0 at both ends and 1 in the middle. A
      single frame divides 0 by 0 in C; its weight is 0 here. */
  function VegasRaw(count: nat): (w: seq<real>)
    ensures |w| == count
  {
    seq(count, i requires 0 <= i < count =>
      if count == 1 then 0.0 else 1.0 - Abs(2.0 * ((i as real) / ((count - 1) as real)) - 1.0))
  }

  lemma MirrorFraction(d: real, a: real)
    requires d > 0.0
    ensures (d - a) / d == 1.0 - a / d
  {
    var q := a / d;
    var r := (d - a) / d;
    assert q * d == a;
    assert r * d == d - a;
    var z := r + q - 1.0;
    assert z * d == r * d + q * d - d == 0.0;
    assert z == 0.0;
  }

  /** Every vegas weight lies in [0, 1] and the tent is symmetric. */
  lemma VegasShape(count: nat)
    ensures forall i | 0 <= i < count :: 0.0 <= VegasRaw(count)[i] <= 1.0
    ensures forall i | 0 <= i < count :: VegasRaw(count)[i] == VegasRaw(count)[count - 1 - i]
  {
    if count > 1 {
      var d := (count - 1) as real;
      forall i | 0 <= i < count
        ensures 0.0 <= VegasRaw(count)[i] <= 1.0
        ensures VegasRaw(count)[i] == VegasRaw(count)[count - 1 - i]
      {
        var t := (i as real) / d;
        var t' := ((count - 1 - i) as real) / d;
        MirrorFraction(d, i as real);
        assert t' == 1.0 - t;
        assert 0.0 <= t <= 1.0;
      }
    }
  }

  /** From three frames on, the weight at index 1 is positive, so the vegas
      weights normalise to a sum of 1. */
  lemma VegasWeightsSumToOne(count: nat)
    requires count >= 3
    ensures Sum(Normalized(VegasRaw(count))) == 1.0
  {
    var raw := VegasRaw(count);
    VegasShape(count);
    var t := 1.0 / (count - 1) as real;
    assert t <= 0.5;
    assert raw[1] == 1.0 - Abs(2.0 * t - 1.0);
    assert raw[1] > 0.0;
    SumAtLeastEntry(raw, 1);
    NormalizedSumsToOne(raw);
  }

  /** With two frames both weights are 0, their sum is not positive, and the
      generator returns two zero weights: the blend of a two-frame window
      under vegas weighting is black. */
  lemma VegasTwoFramesAreAllZero()
    ensures VegasRaw(2) == [0.0, 0.0]
    ensures Normalized(VegasRaw(2)) == [0.0, 0.0]
  {
    assert VegasRaw(2)[0] == 0.0;
    assert VegasRaw(2)[1] == 1.0 - Abs(2.0 * (1.0 / 1.0) - 1.0);
  }

  method GenerateVegasWeights(count: nat) returns (w: seq<real>)
    ensures w == Normalized(VegasRaw(count))
  {
    ghost var raw := VegasRaw(count);
    var weights := new real[count];
    var sum := 0.0;
    for i := 0 to count
      invariant forall j | 0 <= j < i :: weights[j] == raw[j]
      invariant sum == Sum(raw[..i])
    {
      if count == 1 {
        weights[i] := 0.0;
      } else {
        var t := (i as real) / ((count - 1) as real);
        weights[i] := 1.0 - Abs(2.0 * t - 1.0);
      }
      sum := sum + weights[i];
      SumPrefix(raw, i);
    }
    assert weights[..] == raw && raw[..count] == raw;
    NormalizeInPlace(weights, sum);
    w := weights[..];
  }

  // --------------------------------------------------------------- gaussian

  /** exp(-(x * x) / (2 sigma^2)), the bell `generate_gaussian_weights`
      evaluates at x. */
  function Bell(x: real, sigma: real, exp: real -> real): real
    requires sigma != 0.0
  {
    exp(-(x * x) / (2.0 * sigma * sigma))
  }

  lemma BellIsEven(x: real, sigma: real, exp: real -> real)
    requires sigma != 0.0
    ensures Bell(-x, sigma, exp) == Bell(x, sigma, exp)
  {
    assert (-x) * (-x) == x * x;
  }

  /** The raw weights of `generate_gaussian_weights`: sigma = count / 6,
      the centre (count - 1) / 2 when symmetric and 0 otherwise, the bell at
      x = i - centre, and 1 minus it when reversed. */
  function GaussianRaw(count: nat, symmetric: bool, reverse: bool, exp: real -> real): (w: seq<real>)
    ensures |w| == count
  {
    seq(count, i requires 0 <= i < count => GaussianAt(count, symmetric, reverse, exp, i))
  }

  /** The i-th raw Gaussian weight. */
  function GaussianAt(count: nat, symmetric: bool, reverse: bool, exp: real -> real, i: nat): real
    requires count > 0
  {
    var sigma := count as real / 6.0;
    var center := if symmetric then (count - 1) as real / 2.0 else 0.0;
    var g := Bell(i as real - center, sigma, exp);
    if reverse then 1.0 - g else g
  }

  /** Centred weights are mirror images around the middle frame, before and
      after normalising. */
  lemma GaussianSymmetric(count: nat, reverse: bool, exp: real -> real)
    ensures var raw := GaussianRaw(count, true, reverse, exp);
      forall i | 0 <= i < count :: raw[i] == raw[count - 1 - i]
    ensures var w := Normalized(GaussianRaw(count, true, reverse, exp));
      forall i | 0 <= i < count :: w[i] == w[count - 1 - i]
  {
    var raw := GaussianRaw(count, true, reverse, exp);
    var center := (count - 1) as real / 2.0;
    var sigma := count as real / 6.0;
    forall i | 0 <= i < count
      ensures raw[i] == raw[count - 1 - i]
    {
      var x := i as real - center;
      assert (count - 1 - i) as real - center == -x;
      BellIsEven(x, sigma, exp);
    }
  }

  /** With a positive exp, the plain and centred Gaussian weights
      normalise to a sum of 1. */
  lemma GaussianWeightsSumToOne(count: nat, symmetric: bool, exp: real -> real)
    requires count > 0
    requires forall x :: exp(x) > 0.0
    ensures Sum(Normalized(GaussianRaw(count, symmetric, false, exp))) == 1.0
  {
    SumOfPositive(GaussianRaw(count, symmetric, false, exp));
    NormalizedSumsToOne(GaussianRaw(count, symmetric, false, exp));
  }

  /** With exp(0) = 1, the reversed Gaussian gives the centre frame of an
      odd window weight 0, so that frame does not contribute. */
  lemma GaussianReverseDropsCentre(m: nat, exp: real -> real)
    requires exp(0.0) == 1.0
    ensures GaussianRaw(2 * m + 1, true, true, exp)[m] == 0.0
  {
    var count := 2 * m + 1;
    var sigma := count as real / 6.0;
    assert m as real - (count - 1) as real / 2.0 == 0.0;
    assert Bell(0.0, sigma, exp) == exp(0.0) by {
      assert -(0.0 * 0.0) / (2.0 * sigma * sigma) == 0.0;
    }
  }

  method GenerateGaussianWeights(count: nat, symmetric: bool, reverse: bool, exp: real -> real)
    returns (w: seq<real>)
    ensures w == Normalized(GaussianRaw(count, symmetric, reverse, exp))
  {
    ghost var raw := GaussianRaw(count, symmetric, reverse, exp);
    var weights := new real[count];
    var sum := 0.0;
    for i := 0 to count
      invariant forall j | 0 <= j < i :: weights[j] == raw[j]
      invariant sum == Sum(raw[..i])
    {
      weights[i] := GaussianAt(count, symmetric, reverse, exp, i);
      sum := sum + weights[i];
      SumPrefix(raw, i);
    }
    assert weights[..] == raw && raw[..count] == raw;
    NormalizeInPlace(weights, sum);
    w := weights[..];
  }

  // ------------------------------------------------------ config_get_weights

  /** The weights `config_get_weights` returns for `count` frames: the
      configured custom weights (normalised) when there are exactly `count`
      of them, otherwise the generator the weighting name selects, and equal
      weights for an unknown name. */
  function WeightsFor(weighting: seq<char>, custom: seq<real>, count: nat, exp: real -> real): (w: seq<real>)
    requires count > 0
    ensures |w| == count
  {
    if |custom| == count then Normalized(custom)
    else if weighting == "equal" then EqualWeights(count)
    else if weighting == "gaussian_sym" then Normalized(GaussianRaw(count, true, false, exp))
    else if weighting == "gaussian" then Normalized(GaussianRaw(count, false, false, exp))
    else if weighting == "gaussian_reverse" then Normalized(GaussianRaw(count, true, true, exp))
    else if weighting == "vegas" then Normalized(VegasRaw(count))
    else if weighting == "pyramid" then Normalized(PyramidRaw(count))
    else if weighting == "ascending" then Normalized(LinearRaw(count, true))
    else if weighting == "descending" then Normalized(LinearRaw(count, false))
    else EqualWeights(count)
  }

  /** Names whose weights sum to 1 for every window size. */
  predicate AlwaysNormalizes(weighting: seq<char>)
  {
    weighting !in {"gaussian_sym", "gaussian", "gaussian_reverse", "vegas"}
  }

  /** Without matching custom weights, the equal, linear and pyramid names
      (and every unknown name) give weights summing to 1; vegas does from
      three frames on, and so do the plain and centred Gaussians for a
      positive exp. */
  lemma WeightsSumToOne(weighting: seq<char>, count: nat, exp: real -> real)
    requires count > 0
    requires AlwaysNormalizes(weighting)
          || (weighting == "vegas" && count >= 3)
          || (weighting in {"gaussian_sym", "gaussian"} && forall x :: exp(x) > 0.0)
    ensures Sum(WeightsFor(weighting, [], count, exp)) == 1.0
  {
    if weighting == "vegas" {
      VegasWeightsSumToOne(count);
    } else if weighting == "gaussian_sym" {
      GaussianWeightsSumToOne(count, true, exp);
    } else if weighting == "gaussian" {
      GaussianWeightsSumToOne(count, false, exp);
    } else if weighting == "pyramid" {
      PyramidWeightsSumToOne(count);
    } else if weighting == "ascending" {
      LinearWeightsSumToOne(count, true);
    } else if weighting == "descending" {
      LinearWeightsSumToOne(count, false);
    } else {
      EqualWeightsSumToOne(count);
    }
  }

  /** Custom weights with a positive sum are used in their given
      proportions and sum to 1; a custom list of the wrong length is
      ignored. */
  lemma CustomWeightsUsedOnlyOnExactLength(weighting: seq<char>, custom: seq<real>, count: nat, exp: real -> real)
    requires count > 0
    ensures |custom| == count && Sum(custom) > 0.0 ==>
      Sum(WeightsFor(weighting, custom, count, exp)) == 1.0 &&
      forall i | 0 <= i < count :: WeightsFor(weighting, custom, count, exp)[i] * Sum(custom) == custom[i]
    ensures |custom| != count ==> WeightsFor(weighting, custom, count, exp) == WeightsFor(weighting, [], count, exp)
  {
    if |custom| == count && Sum(custom) > 0.0 {
      NormalizedSumsToOne(custom);
    }
  }

  /** `config_get_weights`: None for a non-positive frame count; otherwise
      `frame_count` weights (the `*weight_count` it reports). The custom list
      is copied and summed in one loop and then normalised. */
  method GetWeights(weighting: seq<char>, custom: seq<real>, frameCount: int, exp: real -> real)
    returns (w: Option<seq<real>>)
    ensures frameCount <= 0 ==> w == None
    ensures frameCount > 0 ==> w == Some(WeightsFor(weighting, custom, frameCount, exp))
  {
    if frameCount <= 0 {
      return None;
    }
    if |custom| == frameCount {
      var weights := new real[frameCount];
      var sum := 0.0;
      for i := 0 to frameCount
        invariant forall j | 0 <= j < i :: weights[j] == custom[j]
        invariant sum == Sum(custom[..i])
      {
        weights[i] := custom[i];
        sum := sum + weights[i];
        SumPrefix(custom, i);
      }
      assert weights[..] == custom && custom[..frameCount] == custom;
      NormalizeInPlace(weights, sum);
      return Some(weights[..]);
    }
    var r;
    if weighting == "equal" {
      r := GenerateEqualWeights(frameCount);
    } else if weighting == "gaussian_sym" {
      r := GenerateGaussianWeights(frameCount, true, false, exp);
    } else if weighting == "gaussian" {
      r := GenerateGaussianWeights(frameCount, false, false, exp);
    } else if weighting == "gaussian_reverse" {
      r := GenerateGaussianWeights(frameCount, true, true, exp);
    } else if weighting == "vegas" {
      r := GenerateVegasWeights(frameCount);
    } else if weighting == "pyramid" {
      r := GeneratePyramidWeights(frameCount);
    } else if weighting == "ascending" {
      r := GenerateLinearWeights(frameCount, true);
    } else if weighting == "descending" {
      r := GenerateLinearWeights(frameCount, false);
    } else {
      r := GenerateEqualWeights(frameCount);
    }
    return Some(r);
  }
}
