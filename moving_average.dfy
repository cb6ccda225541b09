// The exponential-moving-average codebook rule of `make_vq_vae`: both
// accumulators move towards the batch statistics by
// `assign_moving_average(..., zero_debias=False)`, and the new codebook row
// of every code is its averaged vector sum divided by its averaged count
// plus a small constant.

module MovingAverage {
  import opened Tensors

  /** The constant added to every averaged count before dividing by it. */
  const Epsilon: real := 0.00001

  /** One moving-average step without zero-debiasing:
      `v <- decay * v + (1 - decay) * x`. With `0 <= decay <= 1` the new
      average lies between the old average and the new value. */
  function Ema(avg: real, x: real, decay: real): (v: real)
    ensures 0.0 <= decay <= 1.0 && avg <= x ==> avg <= v <= x
    ensures 0.0 <= decay <= 1.0 && x <= avg ==> x <= v <= avg
  {
    if 0.0 <= decay <= 1.0 then
      ProductNonNegative(1.0 - decay, if avg <= x then x - avg else avg - x);
      ProductNonNegative(decay, if avg <= x then x - avg else avg - x);
      decay * avg + (1.0 - decay) * x
    else
      decay * avg + (1.0 - decay) * x
  }

  /** `Ema` on every entry of a vector. */
  function EmaVec(avg: Vec, x: Vec, decay: real): (v: Vec)
    requires |avg| == |x|
    ensures |v| == |avg|
  {
    seq(|avg|, i requires 0 <= i < |avg| => Ema(avg[i], x[i], decay))
  }

  /** The new `ema_count`: every code's count moved towards its batch count. */
  function EmaCounts(counts: seq<real>, batchCounts: seq<real>, decay: real): (r: seq<real>)
    requires |counts| == |batchCounts|
    ensures |r| == |counts|
  {
    seq(|counts|, k requires 0 <= k < |counts| => Ema(counts[k], batchCounts[k], decay))
  }

  /** The new `ema_means`: every code's vector sum moved towards its batch
      vector sum. */
  function EmaMeans(means: seq<Vec>, batchSums: seq<Vec>, decay: real, d: nat): (r: seq<Vec>)
    requires |means| == |batchSums| && IsMatrix(means, d) && IsMatrix(batchSums, d)
    ensures |r| == |means| && IsMatrix(r, d)
  {
    seq(|means|, k requires 0 <= k < |means| => EmaVec(means[k], batchSums[k], decay))
  }

  /** One codebook row: the averaged vector sum divided by the averaged count
      plus `Epsilon`. A non-negative count keeps the divisor at least
      `Epsilon`, and the row times the divisor gives back the averaged sum. */
  function Normalize(mean: Vec, count: real): (v: Vec)
    requires count >= 0.0
    ensures |v| == |mean|
    ensures forall i :: 0 <= i < |v| ==> v[i] * (count + Epsilon) == mean[i]
  {
    seq(|mean|, i requires 0 <= i < |mean| => mean[i] / (count + Epsilon))
  }

  /** Every averaged count is non-negative. */
  ghost predicate NonNegative(counts: seq<real>)
  {
    forall k :: 0 <= k < |counts| ==> counts[k] >= 0.0
  }

  /** The codebook the update writes: one `Normalize`d row per code, so that
      every row times its divisor `count + Epsilon` is the averaged sum. */
  function NewCodebook(means: seq<Vec>, counts: seq<real>): (r: seq<Vec>)
    requires |means| == |counts| && NonNegative(counts)
    ensures |r| == |means|
    ensures forall k :: 0 <= k < |r| ==> |r[k]| == |means[k]|
    ensures forall k, i :: 0 <= k < |r| && 0 <= i < |r[k]| ==> r[k][i] * (counts[k] + Epsilon) == means[k][i]
  {
    seq(|means|, k requires 0 <= k < |means| => Normalize(means[k], counts[k]))
  }

  // ---------------------------------------------------------------------
  // Lemmas

  /** A code that no position chose this step has both accumulators scaled
      by exactly `decay`. */
  lemma UnassignedCodeDecays(counts: seq<real>, batchCounts: seq<real>, means: seq<Vec>,
                             batchSums: seq<Vec>, decay: real, d: nat, k: nat)
    requires |counts| == |batchCounts| == |means| == |batchSums|
    requires IsMatrix(means, d) && IsMatrix(batchSums, d)
    requires k < |counts|
    requires batchCounts[k] == 0.0 && batchSums[k] == Zeros(d)
    ensures EmaCounts(counts, batchCounts, decay)[k] == decay * counts[k]
    ensures EmaMeans(means, batchSums, decay, d)[k] == Scale(decay, means[k])
  {
  }

  /** With `0 <= decay <= 1`, a non-negative average moved towards a
      non-negative value stays non-negative, so the divisor
      `count + Epsilon` of the next codebook is at least `Epsilon > 0`. */
  lemma EmaNonNegative(avg: real, x: real, decay: real)
    requires 0.0 <= decay <= 1.0 && avg >= 0.0 && x >= 0.0
    ensures Ema(avg, x, decay) >= 0.0
    ensures Ema(avg, x, decay) + Epsilon >= Epsilon > 0.0
  {
    ProductNonNegative(decay, avg);
    ProductNonNegative(1.0 - decay, x);
  }

  lemma ProductNonNegative(a: real, b: real)
    requires a >= 0.0 && b >= 0.0
    ensures a * b >= 0.0
  {
  }

  /** The averaged counts stay non-negative under the update. */
  lemma EmaCountsNonNegative(counts: seq<real>, batchCounts: seq<real>, decay: real)
    requires |counts| == |batchCounts|
    requires 0.0 <= decay <= 1.0 && NonNegative(counts) && NonNegative(batchCounts)
    ensures NonNegative(EmaCounts(counts, batchCounts, decay))
  {
    forall k | 0 <= k < |counts|
      ensures EmaCounts(counts, batchCounts, decay)[k] >= 0.0
    {
      EmaNonNegative(counts[k], batchCounts[k], decay);
    }
  }

  /** `decay` raised to the power `n`. */
  function Pow(decay: real, n: nat): real
  {
    if n == 0 then 1.0 else decay * Pow(decay, n - 1)
  }

  /** The accumulator of a code that no position chooses for `n` steps in a
      row. */
  function Unchosen(avg: real, decay: real, n: nat): real
  {
    if n == 0 then avg else Ema(Unchosen(avg, decay, n - 1), 0.0, decay)
  }

  /** A code that is never chosen decays geometrically towards zero: after
      `n` steps its accumulator is `decay^n` times what it was. */
  lemma {:induction false} UnchosenDecaysGeometrically(avg: real, decay: real, n: nat)
    ensures Unchosen(avg, decay, n) == Pow(decay, n) * avg
  {
    if n > 0 {
      UnchosenDecaysGeometrically(avg, decay, n - 1);
      MulAssoc(decay, Pow(decay, n - 1), avg);
    }
  }

  lemma MulAssoc(a: real, b: real, c: real)
    ensures a * (b * c) == (a * b) * c
  {
  }

  /** The worked example: with `decay = 0.5`, a code whose accumulators start
      at 0 and `[0, 0]` and that two positions with vector sum `[1, 1]` chose
      ends with count 1, vector sum `[0.5, 0.5]` and codebook row
      `[0.5, 0.5] / 1.00001`. */
  lemma ExampleFirstUpdate()
    ensures EmaCounts([0.0], [2.0], 0.5) == [1.0]
    ensures EmaMeans([[0.0, 0.0]], [[1.0, 1.0]], 0.5, 2) == [[0.5, 0.5]]
    ensures NewCodebook([[0.5, 0.5]], [1.0]) == [[0.5 / 1.00001, 0.5 / 1.00001]]
  {
    assert EmaVec([0.0, 0.0], [1.0, 1.0], 0.5) == [0.5, 0.5];
    assert Normalize([0.5, 0.5], 1.0) == [0.5 / 1.00001, 0.5 / 1.00001];
  }
}
