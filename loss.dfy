// The forward values of the loss composition in `make_vq_vae`: the
// straight-through decoder input, the reconstruction loss, the commitment
// loss and their weighted sum. Gradients are not modelled; only the values
// the forward pass computes are.

module Loss {
  import opened Tensors

  /** A scalar loss value. `tf.reduce_mean` over a tensor with no elements
      yields NaN, and NaN absorbs every later addition and product. */
  datatype Scalar = Finite(value: real) | NaN

  /** The forward values of one composition: the decoder's input
      `codes_straight_through`, the reconstruction loss, the commitment loss
      and the total loss. */
  datatype Forward = Forward(decoderInput: Batch, reconstruction: real, commitment: Scalar, loss: Scalar)

  /** `codes + stop_gradient(nearest - codes)`, entry by entry. */
  function StraightThrough(codes: Batch, nearest: Batch): (st: Batch)
    requires SameShape(codes, nearest)
    ensures SameShape(codes, st)
  {
    seq(|codes|, b requires 0 <= b < |codes| =>
      seq(|codes[b]|, l requires 0 <= l < |codes[b]| =>
        Add(codes[b][l], Sub(nearest[b][l], codes[b][l]))))
  }

  /** Sum over all positions of the squared differences. */
  function SquaredError(xs: seq<Vec>, ys: seq<Vec>): (e: real)
    requires |xs| == |ys| && forall i :: 0 <= i < |xs| ==> |xs[i]| == |ys[i]|
    ensures e >= 0.0
    ensures xs == ys ==> e == 0.0
  {
    if |xs| == 0 then 0.0
    else
      var n := |xs| - 1;
      SquaredError(xs[..n], ys[..n]) + SqDist(xs[n], ys[n])
  }

  /** The number of scalar entries at all positions. */
  function ElementCount(xs: seq<Vec>): nat
  {
    if |xs| == 0 then 0 else ElementCount(xs[..|xs| - 1]) + |xs[|xs| - 1]|
  }

  /** `tf.reduce_mean(tf.square(codes - nearest))`: the mean over every entry
      of the squared difference. It is never negative, it is 0 when the codes
      already equal their nearest entries, and it is NaN exactly when the
      batch has no entries. */
  function Commitment(codes: Batch, nearest: Batch): (c: Scalar)
    requires SameShape(codes, nearest)
    ensures c.NaN? <==> ElementCount(Flatten(codes)) == 0
    ensures c.Finite? ==> c.value >= 0.0
    ensures c.Finite? && codes == nearest ==> c.value == 0.0
  {
    var xs, ys := Flatten(codes), Flatten(nearest);
    FlattenSameShape(codes, nearest);
    var n := ElementCount(xs);
    if n == 0 then NaN else Finite(SquaredError(xs, ys) / n as real)
  }

  /** `beta * commitment + reconstruction`. */
  function WeightedSum(beta: real, commitment: Scalar, reconstruction: real): (r: Scalar)
  {
    match commitment
    case NaN => NaN
    case Finite(c) => Finite(beta * c + reconstruction)
  }

  /** The loss composition of `make_vq_vae`, given the decoder's mean
      log-likelihood of the images (the decoder itself is not modelled). The
      decoder sees exactly the nearest entries; the reconstruction loss is
      the negated mean log-likelihood; the total loss is `beta` times the
      commitment loss plus the reconstruction loss, and is NaN exactly when
      the commitment loss is. */
  function ComposeLoss(codes: Batch, nearest: Batch, beta: real, meanLogLikelihood: real): (f: Forward)
    requires SameShape(codes, nearest)
    ensures f.decoderInput == nearest
    ensures f.reconstruction == -meanLogLikelihood
    ensures f.commitment == Commitment(codes, nearest)
    ensures f.loss.NaN? <==> f.commitment.NaN?
    ensures f.loss.Finite? ==> f.loss.value == beta * f.commitment.value + f.reconstruction
  {
    StraightThroughIsNearest(codes, nearest);
    var commitment := Commitment(codes, nearest);
    Forward(StraightThrough(codes, nearest), -meanLogLikelihood, commitment,
            WeightedSum(beta, commitment, -meanLogLikelihood))
  }

  // ---------------------------------------------------------------------
  // Lemmas

  /** Flattening two batches of the same shape gives position lists of the
      same length whose codes have the same lengths. */
  lemma FlattenSameShape(x: Batch, y: Batch)
    requires SameShape(x, y)
    ensures |Flatten(x)| == |Flatten(y)|
    ensures forall i :: 0 <= i < |Flatten(x)| ==> |Flatten(x)[i]| == |Flatten(y)[i]|
  {
    FlattenSameLength(x, y);
    forall i | 0 <= i < |Flatten(x)|
      ensures |Flatten(x)[i]| == |Flatten(y)[i]|
    {
      var b, l := FlattenIndex(x, y, i);
    }
  }

  /** The straight-through value equals the nearest entries exactly: the
      forward pass of the decoder sees the quantized codes. */
  lemma StraightThroughIsNearest(codes: Batch, nearest: Batch)
    requires SameShape(codes, nearest)
    ensures StraightThrough(codes, nearest) == nearest
  {
    var st := StraightThrough(codes, nearest);
    forall b | 0 <= b < |codes|
      ensures st[b] == nearest[b]
    {
      forall l | 0 <= l < |codes[b]|
        ensures st[b][l] == nearest[b][l]
      {
        var x, y := codes[b][l], nearest[b][l];
        assert Add(x, Sub(y, x)) == y;
      }
    }
  }

  /** When every code already equals its nearest entry and the batch has
      entries, the commitment loss vanishes and the loss is exactly the
      reconstruction loss. */
  lemma CommittedLoss(codes: Batch, beta: real, meanLogLikelihood: real)
    requires SameShape(codes, codes)
    requires ElementCount(Flatten(codes)) > 0
    ensures ComposeLoss(codes, codes, beta, meanLogLikelihood).commitment == Finite(0.0)
    ensures ComposeLoss(codes, codes, beta, meanLogLikelihood).loss == Finite(-meanLogLikelihood)
  {
  }

  /** A list of `n` positions whose codes all have `d` entries has `n * d`
      entries. */
  lemma {:induction false} ElementCountOfMatrix(xs: seq<Vec>, d: nat)
    requires IsMatrix(xs, d)
    ensures ElementCount(xs) == |xs| * d
  {
    if |xs| > 0 {
      ElementCountOfMatrix(xs[..|xs| - 1], d);
      assert |xs| * d == (|xs| - 1) * d + d;
    }
  }

  /** The commitment loss of a `[batch, latent, d]` batch is NaN exactly when
      one of its three axes is empty. */
  lemma CommitmentNaNIffAxisEmpty(codes: Batch, nearest: Batch, d: nat)
    requires IsBatch(codes, d) && SameShape(codes, nearest)
    ensures Commitment(codes, nearest).NaN? <==> |codes| == 0 || |codes[0]| == 0 || d == 0
  {
    FlattenBatchRows(codes, d);
    ElementCountOfMatrix(Flatten(codes), d);
    if |codes| > 0 {
      FlattenLength(codes, |codes[0]|);
      if |codes[0]| > 0 && d > 0 {
        var n := |codes| * |codes[0]|;
        assert n >= 1;
        assert n * d >= 1;
      }
    }
  }
}
