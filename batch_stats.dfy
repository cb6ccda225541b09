// The per-code statistics of one batch that feed the moving averages:
// `tf.reduce_sum(one_hot_assignments, axis=[0, 1])` (how many positions
// chose each code) and the reduction of `codes * one_hot_assignments` over
// the same axes (the sum of the codes that chose each code).

module BatchStats {
  import opened Tensors
  import opened Quantizer

  /** Sum of column `k` over all positions. */
  function ColumnSum(hots: seq<Vec>, k: nat): real
    requires forall i :: 0 <= i < |hots| ==> k < |hots[i]|
  {
    if |hots| == 0 then 0.0
    else ColumnSum(hots[..|hots| - 1], k) + hots[|hots| - 1][k]
  }

  /** The batch count of every code: the one-hot rows summed over all
      positions. */
  function BatchCounts(hots: seq<Vec>, numCodes: nat): (counts: seq<real>)
    requires IsMatrix(hots, numCodes)
    ensures |counts| == numCodes
  {
    seq(numCodes, k requires 0 <= k < numCodes => ColumnSum(hots, k))
  }

  /** Sum over all positions `i` of `hots[i][k] * xs[i]`. */
  function AssignedSum(xs: seq<Vec>, hots: seq<Vec>, k: nat, d: nat): (v: Vec)
    requires |xs| == |hots| && IsMatrix(xs, d)
    requires forall i :: 0 <= i < |hots| ==> k < |hots[i]|
    ensures |v| == d
  {
    if |xs| == 0 then Zeros(d)
    else
      var n := |xs| - 1;
      Add(AssignedSum(xs[..n], hots[..n], k, d), Scale(hots[n][k], xs[n]))
  }

  /** The batch vector sum of every code: `[num_codes, code_size]`. */
  function BatchSums(xs: seq<Vec>, hots: seq<Vec>, numCodes: nat, d: nat): (sums: seq<Vec>)
    requires |xs| == |hots| && IsMatrix(xs, d) && IsMatrix(hots, numCodes)
    ensures |sums| == numCodes && IsMatrix(sums, d)
  {
    seq(numCodes, k requires 0 <= k < numCodes => AssignedSum(xs, hots, k, d))
  }

  /** The two per-code batch statistics that feed the moving averages. */
  datatype Stats = Stats(counts: seq<real>, sums: seq<Vec>)

  /** The batch statistics of a quantized batch, reduced over the batch and
      latent axes: code `k` was chosen by `counts[k]` positions, whose codes
      add up to `sums[k]`. The counts are never negative and add up to the
      number of positions, `batch * latent`. */
  function Statistics(codebook: seq<Vec>, codeSize: nat, codes: Batch): (s: Stats)
    requires IsMatrix(codebook, codeSize)
    requires Quantize(codebook, codeSize, codes).Success?
    ensures |s.counts| == |codebook| && |s.sums| == |codebook| && IsMatrix(s.sums, codeSize)
    ensures |codebook| > 0 && IsMatrix(Flatten(codes), codeSize)
    ensures var xs := Flatten(codes);
            var a := Assignments(codebook, xs, codeSize);
            forall k :: 0 <= k < |codebook| ==>
              s.counts[k] == CountAssigned(a, k) as real && s.sums[k] == SumAssigned(xs, a, k, codeSize)
    ensures forall k :: 0 <= k < |s.counts| ==> s.counts[k] >= 0.0
    ensures Sum(s.counts) == (if |codes| == 0 then 0 else |codes| * |codes[0]|) as real
  {
    var q := Quantize(codebook, codeSize, codes).value;
    var xs, hots := Flatten(codes), Flatten(q.oneHot);
    QuantizedPositions(codebook, codeSize, codes);
    BatchStatistics(xs, hots, Assignments(codebook, xs, codeSize), |codebook|, codeSize);
    Stats(BatchCounts(hots, |codebook|), BatchSums(xs, hots, |codebook|, codeSize))
  }

  // ---------------------------------------------------------------------
  // Reference definitions, in terms of the chosen code indices

  /** How many positions chose code `k`. */
  function CountAssigned(a: seq<nat>, k: nat): nat
  {
    if |a| == 0 then 0
    else CountAssigned(a[..|a| - 1], k) + (if a[|a| - 1] == k then 1 else 0)
  }

  /** The sum of the codes at the positions that chose code `k`. */
  function SumAssigned(xs: seq<Vec>, a: seq<nat>, k: nat, d: nat): (v: Vec)
    requires |xs| == |a| && IsMatrix(xs, d)
    ensures |v| == d
  {
    if |xs| == 0 then Zeros(d)
    else
      var n := |xs| - 1;
      var prev := SumAssigned(xs[..n], a[..n], k, d);
      if a[n] == k then Add(prev, xs[n]) else prev
  }

  /** The count of every code, as reals. */
  function Tally(a: seq<nat>, numCodes: nat): (t: seq<real>)
    ensures |t| == numCodes
  {
    seq(numCodes, k requires 0 <= k < numCodes => CountAssigned(a, k) as real)
  }

  /** Row `i` of `hots` is the one-hot row of index `a[i]`. */
  predicate OneHotRows(hots: seq<Vec>, a: seq<nat>, numCodes: nat)
  {
    |hots| == |a| &&
    forall i :: 0 <= i < |a| ==> a[i] < numCodes && hots[i] == OneHot(a[i], numCodes)
  }

  /** The chosen code index of every position of a flat list of codes. */
  function Assignments(codebook: seq<Vec>, xs: seq<Vec>, d: nat): (a: seq<nat>)
    requires |codebook| > 0 && IsMatrix(codebook, d) && IsMatrix(xs, d)
    ensures |a| == |xs|
    ensures forall i :: 0 <= i < |a| ==> a[i] < |codebook|
  {
    seq(|xs|, i requires 0 <= i < |xs| => NearestIndex(codebook, xs[i]))
  }

  // ---------------------------------------------------------------------
  // Lemmas

  /** Summing column `k` of one-hot rows counts the positions that chose `k`. */
  lemma {:induction false} ColumnSumCounts(hots: seq<Vec>, a: seq<nat>, numCodes: nat, k: nat)
    requires OneHotRows(hots, a, numCodes) && k < numCodes
    ensures ColumnSum(hots, k) == CountAssigned(a, k) as real
  {
    if |a| > 0 {
      var n := |a| - 1;
      assert OneHotRows(hots[..n], a[..n], numCodes) by {
        forall i | 0 <= i < n
          ensures a[..n][i] < numCodes && hots[..n][i] == OneHot(a[..n][i], numCodes)
        {
          assert a[..n][i] == a[i] && hots[..n][i] == hots[i];
        }
      }
      ColumnSumCounts(hots[..n], a[..n], numCodes, k);
    }
  }

  /** Weighting the codes by column `k` of one-hot rows and summing adds up
      exactly the codes that chose `k`. */
  lemma {:induction false} AssignedSumSelects(xs: seq<Vec>, hots: seq<Vec>, a: seq<nat>, numCodes: nat, k: nat, d: nat)
    requires |xs| == |hots| && IsMatrix(xs, d)
    requires OneHotRows(hots, a, numCodes) && k < numCodes
    ensures AssignedSum(xs, hots, k, d) == SumAssigned(xs, a, k, d)
  {
    if |xs| > 0 {
      var n := |xs| - 1;
      assert OneHotRows(hots[..n], a[..n], numCodes) by {
        forall i | 0 <= i < n
          ensures a[..n][i] < numCodes && hots[..n][i] == OneHot(a[..n][i], numCodes)
        {
          assert a[..n][i] == a[i] && hots[..n][i] == hots[i];
        }
      }
      AssignedSumSelects(xs[..n], hots[..n], a[..n], numCodes, k, d);
      var prev := SumAssigned(xs[..n], a[..n], k, d);
      if a[n] == k {
        assert hots[n][k] == 1.0;
        ScaleOne(xs[n]);
      } else {
        assert hots[n][k] == 0.0;
        ScaleZero(xs[n]);
        AddZerosRight(prev);
      }
    }
  }

  /** The per-code counts of `a` add up to the number of positions. */
  lemma {:induction false} CountsTotal(a: seq<nat>, numCodes: nat)
    requires forall i :: 0 <= i < |a| ==> a[i] < numCodes
    ensures Sum(Tally(a, numCodes)) == |a| as real
  {
    if |a| == 0 {
      assert Tally(a, numCodes) == Zeros(numCodes);
      SumZeros(numCodes);
    } else {
      var n := |a| - 1;
      CountsTotal(a[..n], numCodes);
      var before, after := Tally(a[..n], numCodes), Tally(a, numCodes);
      assert after == Add(before, OneHot(a[n], numCodes));
      SumAdd(before, OneHot(a[n], numCodes));
      SumOneHot(a[n], numCodes);
    }
  }

  /** A code has count 0 exactly when no position chose it, and then its
      vector sum is the zero vector. */
  lemma {:induction false} UnchosenStatistics(xs: seq<Vec>, a: seq<nat>, k: nat, d: nat)
    requires |xs| == |a| && IsMatrix(xs, d)
    ensures CountAssigned(a, k) == 0 <==> forall i :: 0 <= i < |a| ==> a[i] != k
    ensures CountAssigned(a, k) == 0 ==> SumAssigned(xs, a, k, d) == Zeros(d)
  {
    if |xs| > 0 {
      var n := |xs| - 1;
      UnchosenStatistics(xs[..n], a[..n], k, d);
      assert forall i :: 0 <= i < n ==> a[..n][i] == a[i];
    }
  }

  /** The batch statistics of one-hot rows: the count of code `k` is the
      number of positions that chose it, the counts add up to the number of
      positions, and the vector sum of code `k` is the sum of the codes that
      chose it. */
  lemma BatchStatistics(xs: seq<Vec>, hots: seq<Vec>, a: seq<nat>, numCodes: nat, d: nat)
    requires |xs| == |hots| && IsMatrix(xs, d)
    requires OneHotRows(hots, a, numCodes)
    ensures IsMatrix(hots, numCodes)
    ensures forall k :: 0 <= k < numCodes ==>
              BatchCounts(hots, numCodes)[k] == CountAssigned(a, k) as real &&
              BatchSums(xs, hots, numCodes, d)[k] == SumAssigned(xs, a, k, d)
    ensures forall k :: 0 <= k < numCodes ==> BatchCounts(hots, numCodes)[k] >= 0.0
    ensures Sum(BatchCounts(hots, numCodes)) == |xs| as real
  {
    forall k | 0 <= k < numCodes
      ensures BatchCounts(hots, numCodes)[k] == CountAssigned(a, k) as real
      ensures BatchSums(xs, hots, numCodes, d)[k] == SumAssigned(xs, a, k, d)
    {
      ColumnSumCounts(hots, a, numCodes, k);
      AssignedSumSelects(xs, hots, a, numCodes, k, d);
    }
    assert BatchCounts(hots, numCodes) == Tally(a, numCodes);
    CountsTotal(a, numCodes);
  }

  /** The positions of a quantized batch, flattened over the batch and latent
      axes: the one-hot row at position `i` is that of the nearest codebook
      row to the code at position `i`, and there are `batch * latent` of
      them. */
  lemma QuantizedPositions(codebook: seq<Vec>, codeSize: nat, codes: Batch)
    requires IsMatrix(codebook, codeSize)
    requires Quantize(codebook, codeSize, codes).Success?
    ensures var xs := Flatten(codes);
            var hots := Flatten(Quantize(codebook, codeSize, codes).value.oneHot);
            |hots| == |xs| && IsMatrix(xs, codeSize) &&
            |xs| == (if |codes| == 0 then 0 else |codes| * |codes[0]|) &&
            OneHotRows(hots, Assignments(codebook, xs, codeSize), |codebook|)
  {
    var q := Quantize(codebook, codeSize, codes).value;
    var xs, hots := Flatten(codes), Flatten(q.oneHot);
    FlattenBatchRows(codes, codeSize);
    FlattenSameLength(codes, q.oneHot);
    if |codes| > 0 {
      FlattenLength(codes, |codes[0]|);
    }
    var a := Assignments(codebook, xs, codeSize);
    forall i | 0 <= i < |xs|
      ensures hots[i] == OneHot(a[i], |codebook|)
    {
      var b, l := FlattenIndex(codes, q.oneHot, i);
    }
  }
}
