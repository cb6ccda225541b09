# VQ-VAE vector-quantization bottleneck

This project models the vector-quantization bottleneck of the VQ-VAE example in
TensorFlow Probability, `tensorflow_probability/examples/vq_vae.py`:

- `VectorQuantizer` owns three variables:
  - a `num_codes × code_size` codebook;
  - the per-code moving average `ema_count`, which starts at 0;
  - the per-code moving average `ema_means`, which starts as a copy of the codebook.
- A call maps every `(batch, latent)` position of a `[batch, latent, code_size]`
  tensor of codes to the codebook row nearest to it. It returns those nearest
  entries and their one-hot assignment rows.
- The training step of `make_vq_vae` composes the straight-through decoder input,
  the commitment loss and the total loss. It then moves both averages towards the
  batch statistics with `assign_moving_average(..., zero_debias=False)` and
  overwrites the codebook with `ema_means / (ema_count + 1e-5)`.

Modules:

- `Tensors` (`tensors.dfy`): vectors and rank-3 batches over exact reals, squared
  distance, and flattening of the batch and latent axes.
- `Quantizer` (`quantizer.dfy`): distances, the lowest-index argmin, one-hot rows,
  the one-hot-weighted gather, and `Quantize`, the value `__call__` computes.
  `Quantize` returns a `Result` so that the failing inputs are part of the model.
- `BatchStats` (`batch_stats.dfy`): the per-code batch counts and vector sums. It
  proves them equal to reference definitions that count and add up the positions
  assigned to each code.
- `MovingAverage` (`moving_average.dfy`): the moving-average recurrences, the
  `1e-5` divisor, and the codebook they produce.
- `Loss` (`loss.dfy`): the forward values of the loss composition. A mean over no
  entries is NaN, as `tf.reduce_mean` gives.
- `VqVae` (`vector_quantizer.dfy`): the class `VectorQuantizer`. Its fields are the
  three variables, held as arrays that `Update` assigns code by code in place.
  `Step` is one training step. It quantizes against the codebook as it was before
  the step, composes the loss from those entries, updates the moving averages,
  and only then writes the codebook. The control dependencies at lines 285-288
  order only the codebook write after the commitment loss; the two
  moving-average assignments follow the quantization through their data
  dependence on the one-hot rows, and nothing in the loss reads them.

Modelling choices:

- The model uses exact reals instead of float32.
- It uses the squared distance instead of `tf.norm`. `ArgMinMonotone` proves that
  a strictly increasing map such as the square root does not move the argmin.
- `tf.argmin` does not document how it breaks ties. The model picks the lowest
  index.
- The decoder's mean log-likelihood of the images is an input real.
- The codebook's random initial value is a parameter of the constructor.

## Model

| member | source | states |
|---|---|---|
| Tensors.SqDist | tensorflow_probability/examples/vq_vae.py:138-141 | the distance between a code and a codebook row is never negative, and is zero between a vector and itself |
| Quantizer.Distances | tensorflow_probability/examples/vq_vae.py:138-141 | one non-negative distance per codebook row |
| Quantizer.ArgMin | tensorflow_probability/examples/vq_vae.py:142 | the index is in range, its value is no larger than any other, and every earlier index holds a strictly larger value (lowest index wins ties) |
| Quantizer.ArgMinMonotone | tensorflow_probability/examples/vq_vae.py:138-142 | a strictly increasing map on the non-negative reals, such as the square root of `tf.norm`, leaves the argmin unchanged, so squared distances select the same code |
| Quantizer.NearestIndex | tensorflow_probability/examples/vq_vae.py:138-142 | the selected codebook row is a 1-nearest neighbour of the code, and the lowest-index one on ties |
| Quantizer.OneHotRow | tensorflow_probability/examples/vq_vae.py:143 | a one-hot row has 1 at the selected index and 0 everywhere else, and sums to 1 |
| Quantizer.OneHot | tensorflow_probability/examples/vq_vae.py:143 | `tf.one_hot` of depth `n` has `n` entries; its 1-at-the-index, 0-elsewhere and sum-1 properties are `OneHotRow` |
| Quantizer.WeightedRowsOneHot | tensorflow_probability/examples/vq_vae.py:144-147 | weighting the codebook rows by a one-hot row and summing over the codes gives exactly the selected row |
| Quantizer.WeightedRows | tensorflow_probability/examples/vq_vae.py:144-147 | the weighted sum over the code axis is a `code_size` vector; `WeightedRowsOneHot` proves that a one-hot weighting selects exactly one row |
| Quantizer.NearestEntry | tensorflow_probability/examples/vq_vae.py:144-147 | the one-hot-weighted sum for one code is exactly the codebook row at that code's nearest index |
| Quantizer.Quantize | tensorflow_probability/examples/vq_vae.py:124-148 | fails exactly when the batch is not a `[batch, latent, code_size]` tensor (ShapeMismatch, checked first) or the codebook is empty (EmptyCodebook); on success the nearest entries have the shape of the codes and the one-hot rows have shape `[batch, latent, num_codes]` |
| Quantizer.QuantizeAt | tensorflow_probability/examples/vq_vae.py:138-148 | at every position the nearest entry is exactly the codebook row of the selected index, whose one-hot row has a single 1 there and sums to 1, and that row is a 1-nearest neighbour (lowest index on ties) |
| Quantizer.ExampleNearestOrigin | tensorflow_probability/examples/vq_vae.py:138-148 | the code `[0.1, 0.1]` against codebook `[[0,0],[10,10],[-10,10],[10,-10]]` gives nearest entry `[0,0]` and one-hot row `[1,0,0,0]` |
| BatchStats.QuantizedPositions | tensorflow_probability/examples/vq_vae.py:274-279 | flattened over the batch and latent axes there are `batch * latent` positions, and the one-hot row at each is the one of that code's nearest codebook index |
| BatchStats.BatchStatistics | tensorflow_probability/examples/vq_vae.py:273-280 | the batch count of code `k` is the number of positions assigned to `k`, the counts add up to the number of positions, and the batch vector sum of `k` is the sum of the codes assigned to `k` |
| BatchStats.BatchCounts | tensorflow_probability/examples/vq_vae.py:274-275 | one batch count per code; `BatchStatistics` proves each is the number of positions assigned to that code and that they total the number of positions |
| BatchStats.BatchSums | tensorflow_probability/examples/vq_vae.py:277-279 | one `code_size` vector sum per code; `BatchStatistics` proves each is the sum of the codes assigned to that code |
| BatchStats.CountsTotal | tensorflow_probability/examples/vq_vae.py:274-275 | the per-code counts of the assignments add up to the number of positions |
| BatchStats.Statistics | tensorflow_probability/examples/vq_vae.py:273-280 | the batch statistics of a quantized batch are the assigned counts and sums, non-negative counts adding up to `batch * latent`, one `code_size` vector sum per code |
| BatchStats.UnchosenStatistics | tensorflow_probability/examples/vq_vae.py:274-279 | a code's batch count is 0 exactly when no position chose it, and then its batch vector sum is the zero vector |
| MovingAverage.Normalize | tensorflow_probability/examples/vq_vae.py:283-284 | a row divided by `count + 1e-5`, multiplied back by that divisor, gives the averaged sum |
| MovingAverage.NewCodebook | tensorflow_probability/examples/vq_vae.py:282-286 | every row of the new codebook times `ema_count[k] + 1e-5` equals `ema_means[k]` |
| MovingAverage.Ema | tensorflow_probability/examples/vq_vae.py:273-280 | with `0 <= decay <= 1`, the new average lies between the old average and the batch value |
| MovingAverage.EmaVec | tensorflow_probability/examples/vq_vae.py:276-280 | the moving average of a vector has the vector's length; `UnassignedCodeDecays` proves that a zero batch sum scales it by `decay` |
| MovingAverage.EmaCounts | tensorflow_probability/examples/vq_vae.py:273-275 | one new count per code; `EmaCountsNonNegative` proves they stay non-negative and `UnassignedCodeDecays` that an unchosen code's count is scaled by `decay` |
| MovingAverage.EmaMeans | tensorflow_probability/examples/vq_vae.py:276-280 | one new `code_size` vector sum per code; `UnassignedCodeDecays` proves that an unchosen code's sum is scaled by `decay` |
| MovingAverage.EmaNonNegative | tensorflow_probability/examples/vq_vae.py:273-283 | with `0 <= decay <= 1`, non-negative averages stay non-negative, so every divisor is at least `1e-5 > 0` |
| MovingAverage.EmaCountsNonNegative | tensorflow_probability/examples/vq_vae.py:273-275 | the averaged counts stay non-negative under the update |
| MovingAverage.UnassignedCodeDecays | tensorflow_probability/examples/vq_vae.py:273-280 | a code with zero count and zero sum in the batch has both accumulators scaled by exactly `decay` |
| MovingAverage.UnchosenDecaysGeometrically | tensorflow_probability/examples/vq_vae.py:273-280 | an accumulator no position chooses for `n` steps is `decay^n` times its starting value |
| MovingAverage.ExampleFirstUpdate | tensorflow_probability/examples/vq_vae.py:273-286 | with decay 0.5, a fresh code chosen by two positions summing to `[1,1]` gets count 1, sum `[0.5,0.5]` and codebook row `[0.5,0.5] / 1.00001` |
| Loss.StraightThroughIsNearest | tensorflow_probability/examples/vq_vae.py:262-264 | the straight-through value `codes + (nearest - codes)` equals the nearest entries |
| Loss.StraightThrough | tensorflow_probability/examples/vq_vae.py:262-263 | the straight-through value has the shape of the codes; `StraightThroughIsNearest` proves it equals the nearest entries |
| Loss.SquaredError | tensorflow_probability/examples/vq_vae.py:266-267 | the sum of squared differences over all positions is never negative and is 0 when the codes equal the nearest entries |
| Loss.Commitment | tensorflow_probability/examples/vq_vae.py:266-267 | the commitment loss is NaN exactly when the batch has no entries, is never negative otherwise, and is 0 when the codes equal their nearest entries |
| Loss.ElementCountOfMatrix | tensorflow_probability/examples/vq_vae.py:266-267 | a batch of `n` positions of `d` entries has `n * d` entries |
| Loss.CommitmentNaNIffAxisEmpty | tensorflow_probability/examples/vq_vae.py:266-267 | the commitment loss of a `[batch, latent, d]` batch is NaN exactly when the batch, latent or code axis is empty |
| Loss.ComposeLoss | tensorflow_probability/examples/vq_vae.py:262-289 | the decoder input is exactly the nearest entries, the reconstruction loss is the negated mean log-likelihood, and the loss is `beta * commitment + reconstruction`, NaN exactly when the commitment loss is |
| Loss.CommittedLoss | tensorflow_probability/examples/vq_vae.py:262-289 | when the codes equal their nearest entries and the batch has entries, the commitment loss is 0 and the loss equals the reconstruction loss |
| VqVae.VectorQuantizer.constructor | tensorflow_probability/examples/vq_vae.py:112-122 | the codebook takes the initial value, every `ema_count[k]` is 0 and `ema_means` is an exact copy of the codebook, all three freshly allocated |
| VqVae.VectorQuantizer.Call | tensorflow_probability/examples/vq_vae.py:124-148 | a call returns the quantization of the codes against the current codebook and changes no variable |
| VqVae.VectorQuantizer.Update | tensorflow_probability/examples/vq_vae.py:273-286 | `ema_count` and `ema_means` become `decay * old + (1 - decay) * batch`, the codebook becomes the new `ema_means / (ema_count + 1e-5)`, and the variables keep their shapes and non-negative counts |
| VqVae.VectorQuantizer.Step | tensorflow_probability/examples/vq_vae.py:257-289 | the loss is composed from the quantization against the codebook before the step, and the moving averages and the codebook are then updated from that quantization's statistics; a batch that cannot be quantized changes nothing |
| VqVae.UnchosenCodeAfterStep | tensorflow_probability/examples/vq_vae.py:273-280 | in a training step, a code that no position chose has both moving averages scaled by exactly `decay` |

## Left out

- The encoder and decoder networks (`make_encoder`, `make_decoder`) and the decoder's Bernoulli distribution are not modelled. The reconstruction loss enters only through the decoder's mean log-likelihood, an input real. That input is not NaN when the batch is empty.
- Gradients, including the effect of `tf.stop_gradient`, are not modelled. Only forward values are.
- The `tf.summary.scalar` logging, image saving, data pipelines, fake data, `main`, the optimizer, checkpointing and prior sampling are I/O or session plumbing and are not modelled.
- float32 rounding and the square root in `tf.norm` are not modelled. Values are exact reals and distances are squared (see `ArgMinMonotone`).
- The codebook's random initializer is not modelled. The initial codebook is a parameter of the constructor.
- Quantizer.Quantize: shapes that TensorFlow would broadcast are reported as ShapeMismatch, in both directions: codes whose trailing axis has size 1 against a wider codebook, and a codebook with `code_size` 1 against wider codes. With a `code_size`-1 codebook against wider codes, a whole training step fails anyway, at the `ema_means` update, so only a bare call differs there. Codes with trailing axis 1 are different: they run through a whole training step (see the `VqVae.VectorQuantizer.Step` line).
- Quantizer.ArgMin: `tf.argmin` leaves ties unspecified; the lowest index is a modelling choice.
- Tensors.SqDist: states only that equal vectors are at distance 0, not the converse.
- VqVae.VectorQuantizer.Update: requires `0 <= decay <= 1`, which the source does not check. Outside that range a count can go negative and a divisor can reach 0.
- VqVae.VectorQuantizer.Step: requires `0 <= decay <= 1`, like `Update`, which it calls; the source does not check this.
- VqVae.VectorQuantizer.Step: codes whose trailing axis has size 1, against a codebook with `code_size` greater than 1, are a `Failure(ShapeMismatch)` that changes nothing in the model. TensorFlow broadcasts them through the lookup, the commitment loss and the `ema_means` update, and writes all three variables. The program never builds such codes, because the encoder reshapes its output to the same `code_size` as the quantizer (line 169).
- VqVae.VectorQuantizer.Step: failures are modelled as a call that returns an error before any variable is assigned. How TensorFlow raises them, at graph construction or at run time, is not modelled.
