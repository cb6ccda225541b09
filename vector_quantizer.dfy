// `VectorQuantizer` and one training step of its bottleneck. The quantizer
// owns three variables, `codebook` (`[num_codes, code_size]`), `ema_count`
// (`[num_codes]`) and `ema_means` (`[num_codes, code_size]`); a call reads the
// codebook, and a training step quantizes, composes the loss and then
// assigns all three in place.

module VqVae {
  import opened Tensors
  import opened Quantizer
  import opened BatchStats
  import opened MovingAverage
  import opened Loss

  class VectorQuantizer {
    const numCodes: nat
    const codeSize: nat
    /** Row `k` is the codebook entry of code `k`. */
    const codebook: array<Vec>
    /** The moving average of how many positions chose each code (without
        the `Epsilon` that is added on reading it). */
    const emaCount: array<real>
    /** The moving average of the vector sum of the codes that chose each
        code. */
    const emaMeans: array<Vec>

    /** The three variables have their declared shapes, the codebook and the
        averaged sums are distinct variables, and no averaged count is
        negative. */
    ghost predicate Valid()
      reads codebook, emaCount, emaMeans
    {
      codebook.Length == numCodes && emaCount.Length == numCodes && emaMeans.Length == numCodes &&
      codebook != emaMeans &&
      IsMatrix(codebook[..], codeSize) && IsMatrix(emaMeans[..], codeSize) &&
      NonNegative(emaCount[..])
    }

    /** `__init__`: the codebook takes the given initial value (drawn by the
        variable's initializer), `ema_count` starts at zero and `ema_means`
        starts as a copy of the codebook. */
    constructor(initial: seq<Vec>, codeSize: nat)
      requires IsMatrix(initial, codeSize)
      ensures Valid()
      ensures numCodes == |initial| && this.codeSize == codeSize
      ensures codebook[..] == initial && emaMeans[..] == initial
      ensures emaCount[..] == Zeros(|initial|)
      ensures fresh(codebook) && fresh(emaCount) && fresh(emaMeans)
    {
      numCodes := |initial|;
      this.codeSize := codeSize;
      codebook := new Vec[|initial|](i requires 0 <= i < |initial| => initial[i]);
      emaCount := new real[|initial|](_ => 0.0);
      emaMeans := new Vec[|initial|](i requires 0 <= i < |initial| => initial[i]);
    }

    /** `__call__`: quantizes `codes` against the current codebook and changes
        nothing. */
    method Call(codes: Batch) returns (r: Result<Quantized>)
      requires Valid()
      ensures r == Quantize(codebook[..], codeSize, codes)
    {
      r := Quantize(codebook[..], codeSize, codes);
    }

    /** The three assignments of the moving-average update: `ema_count` and
        `ema_means` move towards the batch statistics, then the codebook is
        overwritten with the averaged sums divided by the averaged counts plus
        `Epsilon`. The variables keep their shapes and the counts stay
        non-negative. */
    method Update(batchCounts: seq<real>, batchSums: seq<Vec>, decay: real)
      requires Valid()
      requires |batchCounts| == numCodes && |batchSums| == numCodes
      requires NonNegative(batchCounts) && IsMatrix(batchSums, codeSize)
      requires 0.0 <= decay <= 1.0
      modifies codebook, emaCount, emaMeans
      ensures Valid()
      ensures emaCount[..] == EmaCounts(old(emaCount[..]), batchCounts, decay)
      ensures emaMeans[..] == EmaMeans(old(emaMeans[..]), batchSums, decay, codeSize)
      ensures codebook[..] == NewCodebook(emaMeans[..], emaCount[..])
    {
      ghost var counts0, means0 := emaCount[..], emaMeans[..];
      ghost var counts1 := EmaCounts(counts0, batchCounts, decay);
      ghost var means1 := EmaMeans(means0, batchSums, decay, codeSize);

      for k := 0 to numCodes
        invariant forall j :: 0 <= j < k ==> emaCount[j] == counts1[j]
        invariant forall j :: k <= j < numCodes ==> emaCount[j] == counts0[j]
        invariant codebook[..] == old(codebook[..]) && emaMeans[..] == means0
      {
        emaCount[k] := Ema(emaCount[k], batchCounts[k], decay);
      }
      assert emaCount[..] == counts1;
      EmaCountsNonNegative(counts0, batchCounts, decay);

      for k := 0 to numCodes
        invariant forall j :: 0 <= j < k ==> emaMeans[j] == means1[j]
        invariant forall j :: k <= j < numCodes ==> emaMeans[j] == means0[j]
        invariant codebook[..] == old(codebook[..]) && emaCount[..] == counts1
      {
        emaMeans[k] := EmaVec(emaMeans[k], batchSums[k], decay);
      }
      assert emaMeans[..] == means1;

      ghost var book := NewCodebook(means1, counts1);
      for k := 0 to numCodes
        invariant forall j :: 0 <= j < k ==> codebook[j] == book[j]
        invariant emaMeans[..] == means1 && emaCount[..] == counts1
      {
        codebook[k] := Normalize(emaMeans[k], emaCount[k]);
      }
      assert codebook[..] == book;
    }

    /** One training step of the bottleneck: the codes are quantized against
        the codebook as it was before the step; the loss is composed from
        those nearest entries (so it is unaffected by the update that follows
        it); then the moving averages take the batch statistics of that
        quantization and the codebook is rewritten from them. A batch that
        cannot be quantized leaves every variable as it was. */
    method Step(codes: Batch, beta: real, meanLogLikelihood: real, decay: real) returns (r: Result<Forward>)
      requires Valid()
      requires 0.0 <= decay <= 1.0
      modifies codebook, emaCount, emaMeans
      ensures Valid()
      ensures Quantize(old(codebook[..]), codeSize, codes).Failure? ==>
                r == Failure(Quantize(old(codebook[..]), codeSize, codes).error) &&
                unchanged(codebook) && unchanged(emaCount) && unchanged(emaMeans)
      ensures Quantize(old(codebook[..]), codeSize, codes).Success? ==>
                var q := Quantize(old(codebook[..]), codeSize, codes).value;
                var s := Statistics(old(codebook[..]), codeSize, codes);
                r == Success(ComposeLoss(codes, q.nearest, beta, meanLogLikelihood)) &&
                emaCount[..] == EmaCounts(old(emaCount[..]), s.counts, decay) &&
                emaMeans[..] == EmaMeans(old(emaMeans[..]), s.sums, decay, codeSize) &&
                codebook[..] == NewCodebook(emaMeans[..], emaCount[..])
    {
      var q := Call(codes);
      if q.Failure? {
        return Failure(q.error);
      }
      var f := ComposeLoss(codes, q.value.nearest, beta, meanLogLikelihood);
      var s := Statistics(codebook[..], codeSize, codes);
      Update(s.counts, s.sums, decay);
      r := Success(f);
    }
  }

  /** A code that no position of a training step chose keeps both of its
      moving averages, scaled by exactly `decay`: its statistics in that step
      are a count of 0 and the zero vector. */
  lemma UnchosenCodeAfterStep(codebook: seq<Vec>, codeSize: nat, codes: Batch,
                              counts: seq<real>, means: seq<Vec>, decay: real, k: nat)
    requires IsMatrix(codebook, codeSize) && Quantize(codebook, codeSize, codes).Success?
    requires |counts| == |codebook| && |means| == |codebook| && IsMatrix(means, codeSize)
    requires k < |codebook|
    requires forall b, l :: 0 <= b < |codes| && 0 <= l < |codes[b]| ==>
               NearestIndex(codebook, codes[b][l]) != k
    ensures var s := Statistics(codebook, codeSize, codes);
            EmaCounts(counts, s.counts, decay)[k] == decay * counts[k] &&
            EmaMeans(means, s.sums, decay, codeSize)[k] == Scale(decay, means[k])
  {
    var s := Statistics(codebook, codeSize, codes);
    var xs := Flatten(codes);
    var a := Assignments(codebook, xs, codeSize);
    forall i | 0 <= i < |a|
      ensures a[i] != k
    {
      var b, l := FlattenIndex(codes, codes, i);
    }
    UnchosenStatistics(xs, a, k, codeSize);
    UnassignedCodeDecays(counts, s.counts, means, s.sums, decay, codeSize, k);
  }
}
