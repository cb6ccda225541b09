// Vectors, matrices and rank-3 batches over exact reals, with the few
// reductions the quantizer needs (sum, squared distance, flattening of the
// two leading axes).

module Tensors {

  /** One code or codebook entry: a vector of `code_size` reals. */
  type Vec = seq<real>

  /** A rank-3 batch `[batch, latent, code_size]`. */
  type Batch = seq<seq<Vec>>

  /** Every row of `rows` has `d` entries (a `[len(rows), d]` matrix). */
  predicate IsMatrix(rows: seq<Vec>, d: nat)
  {
    forall k :: 0 <= k < |rows| ==> |rows[k]| == d
  }

  /** `codes` is a well-formed `[batch, latent, d]` tensor: every batch element
      has the same number of latent positions and every code has `d` entries. */
  predicate IsBatch(codes: Batch, d: nat)
  {
    (forall b :: 0 <= b < |codes| ==> |codes[b]| == |codes[0]|) &&
    (forall b, l :: 0 <= b < |codes| && 0 <= l < |codes[b]| ==> |codes[b][l]| == d)
  }

  /** Two batches have the same `[batch, latent, d]` shape. */
  predicate SameShape(x: Batch, y: Batch)
  {
    |x| == |y| &&
    (forall b :: 0 <= b < |x| ==> |x[b]| == |y[b]|) &&
    (forall b, l :: 0 <= b < |x| && 0 <= l < |x[b]| ==> |x[b][l]| == |y[b][l]|)
  }

  function Zeros(n: nat): (z: Vec)
    ensures |z| == n
    ensures forall i :: 0 <= i < n ==> z[i] == 0.0
  {
    seq(n, _ => 0.0)
  }

  function Add(u: Vec, v: Vec): (w: Vec)
    requires |u| == |v|
    ensures |w| == |u|
    ensures forall i :: 0 <= i < |w| ==> w[i] == u[i] + v[i]
  {
    seq(|u|, i requires 0 <= i < |u| => u[i] + v[i])
  }

  function Sub(u: Vec, v: Vec): (w: Vec)
    requires |u| == |v|
    ensures |w| == |u|
    ensures forall i :: 0 <= i < |w| ==> w[i] == u[i] - v[i]
  {
    seq(|u|, i requires 0 <= i < |u| => u[i] - v[i])
  }

  function Scale(c: real, v: Vec): (w: Vec)
    ensures |w| == |v|
    ensures forall i :: 0 <= i < |w| ==> w[i] == c * v[i]
  {
    seq(|v|, i requires 0 <= i < |v| => c * v[i])
  }

  /** Sum of the entries, added left to right. */
  function Sum(xs: seq<real>): real
  {
    if |xs| == 0 then 0.0 else Sum(xs[..|xs| - 1]) + xs[|xs| - 1]
  }

  /** Squared Euclidean distance. It is never negative and it is zero between
      a vector and itself. */
  function SqDist(x: Vec, c: Vec): (r: real)
    requires |x| == |c|
    ensures r >= 0.0
    ensures x == c ==> r == 0.0
  {
    if |x| == 0 then 0.0
    else
      var n := |x| - 1;
      assert x == c ==> x[..n] == c[..n];
      SqDist(x[..n], c[..n]) + (x[n] - c[n]) * (x[n] - c[n])
  }

  /** Concatenation of the rows: reduces the two leading axes of a tensor to
      one list of positions, in row-major order. */
  function Flatten<T>(xss: seq<seq<T>>): seq<T>
  {
    if |xss| == 0 then [] else Flatten(xss[..|xss| - 1]) + xss[|xss| - 1]
  }

  // ---------------------------------------------------------------------
  // Lemmas about vectors

  lemma AddZerosLeft(v: Vec)
    ensures Add(Zeros(|v|), v) == v
  {
  }

  lemma ScaleOne(v: Vec)
    ensures Scale(1.0, v) == v
  {
  }

  lemma ScaleZero(v: Vec)
    ensures Scale(0.0, v) == Zeros(|v|)
  {
  }

  lemma AddZerosRight(v: Vec)
    ensures Add(v, Zeros(|v|)) == v
  {
  }

  lemma {:induction false} SumZeros(n: nat)
    ensures Sum(Zeros(n)) == 0.0
  {
    if n > 0 {
      SumZeros(n - 1);
      assert Zeros(n)[..n - 1] == Zeros(n - 1);
    }
  }

  /** Summing is additive over pointwise addition. */
  lemma {:induction false} SumAdd(u: Vec, v: Vec)
    requires |u| == |v|
    ensures Sum(Add(u, v)) == Sum(u) + Sum(v)
  {
    if |u| > 0 {
      var n := |u| - 1;
      SumAdd(u[..n], v[..n]);
      assert Add(u, v)[..n] == Add(u[..n], v[..n]);
    }
  }

  /** Flattening two tensors with the same row lengths gives lists of the
      same length. */
  lemma {:induction false} FlattenSameLength<A, B>(xss: seq<seq<A>>, yss: seq<seq<B>>)
    requires |xss| == |yss|
    requires forall b :: 0 <= b < |xss| ==> |xss[b]| == |yss[b]|
    ensures |Flatten(xss)| == |Flatten(yss)|
  {
    if |xss| > 0 {
      FlattenSameLength(xss[..|xss| - 1], yss[..|yss| - 1]);
    }
  }

  /** Position `i` of a flattened tensor is the entry at some (row, column)
      pair `(b, l)`, and the same pair gives position `i` of any tensor with
      the same row lengths. */
  lemma {:induction false} FlattenIndex<A, B>(xss: seq<seq<A>>, yss: seq<seq<B>>, i: nat)
    returns (b: nat, l: nat)
    requires |xss| == |yss|
    requires forall k :: 0 <= k < |xss| ==> |xss[k]| == |yss[k]|
    requires i < |Flatten(xss)|
    ensures b < |xss| && l < |xss[b]|
    ensures |Flatten(xss)| == |Flatten(yss)|
    ensures Flatten(xss)[i] == xss[b][l] && Flatten(yss)[i] == yss[b][l]
  {
    var n := |xss| - 1;
    FlattenSameLength(xss, yss);
    FlattenSameLength(xss[..n], yss[..n]);
    if i < |Flatten(xss[..n])| {
      b, l := FlattenIndex(xss[..n], yss[..n], i);
    } else {
      b, l := n, i - |Flatten(xss[..n])|;
    }
  }

  /** A tensor whose rows all have `width` entries flattens to
      `len * width` positions (`batch * latent` for a batch). */
  lemma {:induction false} FlattenLength<T>(xss: seq<seq<T>>, width: nat)
    requires forall b :: 0 <= b < |xss| ==> |xss[b]| == width
    ensures |Flatten(xss)| == |xss| * width
  {
    if |xss| > 0 {
      FlattenLength(xss[..|xss| - 1], width);
      assert |xss| * width == (|xss| - 1) * width + width;
    }
  }

  /** Every position of a flattened batch is a code of length `d`. */
  lemma FlattenBatchRows(codes: Batch, d: nat)
    requires IsBatch(codes, d)
    ensures IsMatrix(Flatten(codes), d)
  {
    forall i | 0 <= i < |Flatten(codes)|
      ensures |Flatten(codes)[i]| == d
    {
      var b, l := FlattenIndex(codes, codes, i);
    }
  }
}
