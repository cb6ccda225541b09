// The nearest-neighbour lookup of `VectorQuantizer.__call__`: distances to
// every codebook row, the index of the smallest one, its one-hot row, and
// the one-hot-weighted sum of the codebook rows.

module Quantizer {
  import opened Tensors

  /** Why a call fails. A batch whose trailing axis is not `code_size` (or
      that is not a proper rank-3 tensor) cannot be broadcast against the
      codebook; an empty codebook leaves `argmin` nothing to reduce over. */
  datatype Error = ShapeMismatch | EmptyCodebook

  datatype Result<T> = Success(value: T) | Failure(error: Error)

  /** The two tensors the quantizer returns: `nearest_codebook_entries`
      (`[batch, latent, code_size]`) and `one_hot_assignments`
      (`[batch, latent, num_codes]`). */
  datatype Quantized = Quantized(nearest: Batch, oneHot: Batch)

  /** Distance from `x` to every codebook row. The squared distance stands
      for the Euclidean norm: see `ArgMinMonotone`. */
  function Distances(codebook: seq<Vec>, x: Vec): (ds: seq<real>)
    requires IsMatrix(codebook, |x|)
    ensures |ds| == |codebook|
    ensures forall k :: 0 <= k < |ds| ==> ds[k] >= 0.0
  {
    seq(|codebook|, k requires 0 <= k < |codebook| => SqDist(x, codebook[k]))
  }

  /** `k` is the smallest index holding the minimum of `ds`. */
  ghost predicate IsLowestArgMin(ds: seq<real>, k: nat)
  {
    k < |ds| &&
    (forall j :: 0 <= j < |ds| ==> ds[k] <= ds[j]) &&
    (forall j :: 0 <= j < k ==> ds[k] < ds[j])
  }

  /** The index of the minimum; of several equal minima the lowest index
      wins. */
  function ArgMin(ds: seq<real>): (k: nat)
    requires |ds| > 0
    ensures k < |ds|
    ensures forall j :: 0 <= j < |ds| ==> ds[k] <= ds[j]
    ensures forall j :: 0 <= j < k ==> ds[k] < ds[j]
  {
    if |ds| == 1 then 0
    else
      var n := |ds| - 1;
      var k := ArgMin(ds[..n]);
      assert forall j :: 0 <= j < n ==> ds[..n][j] == ds[j];
      if ds[n] < ds[k] then n else k
  }

  /** The two properties of `ArgMin` determine it. */
  lemma ArgMinUnique(ds: seq<real>, k: nat)
    requires |ds| > 0 && IsLowestArgMin(ds, k)
    ensures k == ArgMin(ds)
  {
  }

  /** Applying a map that is strictly increasing on the non-negative reals
      (such as the square root that turns a squared distance into the
      Euclidean norm) to non-negative distances does not move the argmin. */
  lemma ArgMinMonotone(ds: seq<real>, f: real -> real)
    requires |ds| > 0
    requires forall j :: 0 <= j < |ds| ==> ds[j] >= 0.0
    requires forall a, b :: 0.0 <= a < b ==> f(a) < f(b)
    ensures ArgMin(seq(|ds|, i requires 0 <= i < |ds| => f(ds[i]))) == ArgMin(ds)
  {
    var es := seq(|ds|, i requires 0 <= i < |ds| => f(ds[i]));
    var k := ArgMin(ds);
    forall j | 0 <= j < |ds|
      ensures es[k] <= es[j]
    {
      if ds[k] < ds[j] {
        assert f(ds[k]) < f(ds[j]);
      }
    }
    forall j | 0 <= j < k
      ensures es[k] < es[j]
    {
      assert f(ds[k]) < f(ds[j]);
    }
    ArgMinUnique(es, k);
  }

  /** `tf.argmin(distances, 2)` for one code: the index of the codebook row
      nearest to `x`, lowest index on ties. */
  function NearestIndex(codebook: seq<Vec>, x: Vec): (k: nat)
    requires |codebook| > 0 && IsMatrix(codebook, |x|)
    ensures k < |codebook|
    ensures forall j :: 0 <= j < |codebook| ==> SqDist(x, codebook[k]) <= SqDist(x, codebook[j])
    ensures forall j :: 0 <= j < k ==> SqDist(x, codebook[k]) < SqDist(x, codebook[j])
  {
    var ds := Distances(codebook, x);
    var k := ArgMin(ds);
    assert forall j :: 0 <= j < |codebook| ==> ds[j] == SqDist(x, codebook[j]);
    k
  }

  /** `tf.one_hot(j, depth=n)`: 1 at index `j`, 0 elsewhere. */
  function OneHot(j: nat, n: nat): (h: Vec)
    ensures |h| == n
  {
    seq(n, i => if i == j then 1.0 else 0.0)
  }

  /** The sum over the code axis of `w[k] * rows[k]` (the reduction at the end
      of `__call__`). */
  function WeightedRows(w: Vec, rows: seq<Vec>, d: nat): (v: Vec)
    requires |w| == |rows| && IsMatrix(rows, d)
    ensures |v| == d
  {
    if |rows| == 0 then Zeros(d)
    else
      var n := |rows| - 1;
      Add(WeightedRows(w[..n], rows[..n], d), Scale(w[n], rows[n]))
  }

  /** The nearest codebook row as the source computes it: the one-hot row
      times the codebook, summed over the codes. */
  function NearestEntry(codebook: seq<Vec>, x: Vec): (v: Vec)
    requires |codebook| > 0 && IsMatrix(codebook, |x|)
    ensures |v| == |x|
    ensures v == codebook[NearestIndex(codebook, x)]
  {
    WeightedRowsOneHot(codebook, |x|, NearestIndex(codebook, x));
    WeightedRows(OneHot(NearestIndex(codebook, x), |codebook|), codebook, |x|)
  }

  /** `VectorQuantizer.__call__`: quantizes every `(batch, latent)` position
      of `codes` against `codebook`. */
  function Quantize(codebook: seq<Vec>, codeSize: nat, codes: Batch): (r: Result<Quantized>)
    requires IsMatrix(codebook, codeSize)
    ensures r.Failure? <==> !IsBatch(codes, codeSize) || |codebook| == 0
    ensures r.Failure? ==> r.error == if !IsBatch(codes, codeSize) then ShapeMismatch else EmptyCodebook
    ensures r.Success? ==> SameShape(codes, r.value.nearest)
    ensures r.Success? ==> |r.value.oneHot| == |codes|
    ensures r.Success? ==> forall b :: 0 <= b < |codes| ==> |r.value.oneHot[b]| == |codes[b]|
    ensures r.Success? ==> forall b, l :: 0 <= b < |codes| && 0 <= l < |codes[b]| ==>
                             |r.value.oneHot[b][l]| == |codebook|
  {
    if !IsBatch(codes, codeSize) then Failure(ShapeMismatch)
    else if |codebook| == 0 then Failure(EmptyCodebook)
    else
      Success(Quantized(
        seq(|codes|, b requires 0 <= b < |codes| =>
          seq(|codes[b]|, l requires 0 <= l < |codes[b]| => NearestEntry(codebook, codes[b][l]))),
        seq(|codes|, b requires 0 <= b < |codes| =>
          seq(|codes[b]|, l requires 0 <= l < |codes[b]| =>
            OneHot(NearestIndex(codebook, codes[b][l]), |codebook|)))))
  }

  // ---------------------------------------------------------------------
  // Lemmas

  /** A one-hot row of depth `n` sums to 1 when `j < n`, and to 0 otherwise. */
  lemma {:induction false} SumOneHot(j: nat, n: nat)
    ensures Sum(OneHot(j, n)) == if j < n then 1.0 else 0.0
  {
    if n > 0 {
      SumOneHot(j, n - 1);
      assert OneHot(j, n)[..n - 1] == OneHot(j, n - 1);
    }
  }

  /** Every one-hot row has exactly one entry equal to 1, at the selected
      index, all others 0, and so sums to 1. */
  lemma OneHotRow(j: nat, n: nat)
    requires j < n
    ensures OneHot(j, n)[j] == 1.0
    ensures forall i :: 0 <= i < n && i != j ==> OneHot(j, n)[i] == 0.0
    ensures Sum(OneHot(j, n)) == 1.0
  {
    SumOneHot(j, n);
  }

  /** Weighting the codebook rows by a one-hot row and summing selects one
      row exactly (or nothing, when the index is past the last row). */
  lemma {:induction false} WeightedRowsOneHot(rows: seq<Vec>, d: nat, j: nat)
    requires IsMatrix(rows, d)
    ensures WeightedRows(OneHot(j, |rows|), rows, d) == if j < |rows| then rows[j] else Zeros(d)
  {
    if |rows| > 0 {
      var n := |rows| - 1;
      WeightedRowsOneHot(rows[..n], d, j);
      assert OneHot(j, |rows|)[..n] == OneHot(j, n);
      var prev := WeightedRows(OneHot(j, n), rows[..n], d);
      if j == n {
        assert prev == Zeros(d);
        ScaleOne(rows[n]);
        AddZerosLeft(rows[n]);
      } else {
        ScaleZero(rows[n]);
        AddZerosRight(prev);
        if j < n {
          assert rows[..n][j] == rows[j];
        }
      }
    }
  }

  /** What `__call__` returns at every position `(b, l)`: the one-hot row has
      a single 1 at the nearest codebook index `k` and sums to 1, the nearest
      entry is exactly codebook row `k`, and row `k` is a 1-nearest
      neighbour of the code, the lowest such index on ties. */
  lemma QuantizeAt(codebook: seq<Vec>, codeSize: nat, codes: Batch, b: nat, l: nat)
    requires IsMatrix(codebook, codeSize)
    requires Quantize(codebook, codeSize, codes).Success?
    requires b < |codes| && l < |codes[b]|
    ensures |codes[b][l]| == codeSize && |codebook| > 0
    ensures var q := Quantize(codebook, codeSize, codes).value;
            var x := codes[b][l];
            var k := NearestIndex(codebook, x);
            q.nearest[b][l] == codebook[k] &&
            q.oneHot[b][l][k] == 1.0 &&
            (forall j :: 0 <= j < |codebook| && j != k ==> q.oneHot[b][l][j] == 0.0) &&
            Sum(q.oneHot[b][l]) == 1.0 &&
            (forall j :: 0 <= j < |codebook| ==> SqDist(x, codebook[k]) <= SqDist(x, codebook[j])) &&
            (forall j :: 0 <= j < k ==> SqDist(x, codebook[k]) < SqDist(x, codebook[j]))
  {
    var k := NearestIndex(codebook, codes[b][l]);
    OneHotRow(k, |codebook|);
    WeightedRowsOneHot(codebook, codeSize, k);
  }

  /** The worked example: codebook `[[0,0],[10,10],[-10,10],[10,-10]]` and the
      single code `[0.1, 0.1]` give nearest entry `[0,0]` and one-hot row
      `[1,0,0,0]`. */
  lemma ExampleNearestOrigin()
    ensures var codebook := [[0.0, 0.0], [10.0, 10.0], [-10.0, 10.0], [10.0, -10.0]];
            Quantize(codebook, 2, [[[0.1, 0.1]]]) ==
              Success(Quantized([[[0.0, 0.0]]], [[[1.0, 0.0, 0.0, 0.0]]]))
  {
    var codebook := [[0.0, 0.0], [10.0, 10.0], [-10.0, 10.0], [10.0, -10.0]];
    var x := [0.1, 0.1];
    assert SqDist(x, codebook[0]) == 0.02;
    assert SqDist(x, codebook[1]) > 0.02;
    assert SqDist(x, codebook[2]) > 0.02;
    assert SqDist(x, codebook[3]) > 0.02;
    assert NearestIndex(codebook, x) == 0;
    assert OneHot(0, 4) == [1.0, 0.0, 0.0, 0.0];
    QuantizeAt(codebook, 2, [[x]], 0, 0);
    var q := Quantize(codebook, 2, [[x]]).value;
    assert q.nearest[0][0] == [0.0, 0.0] && q.oneHot[0][0] == [1.0, 0.0, 0.0, 0.0];
    assert q.nearest[0] == [[0.0, 0.0]] && q.oneHot[0] == [[1.0, 0.0, 0.0, 0.0]];
    assert q == Quantized([[[0.0, 0.0]]], [[[1.0, 0.0, 0.0, 0.0]]]);
  }
}
