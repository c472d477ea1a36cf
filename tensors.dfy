/**
 * The tensor primitives of src/nn.js: row sums of a matrix, ReLU and leaky ReLU, their
 * gradients, and one-hot vectors. A tensor is its dims and a zero-initialised flat data
 * buffer; numbers are exact reals. Each forward function fills a fresh buffer, each
 * backward body adds into the input's gradient buffer in place.
 */
module Tensors {
  import opened Results
  import opened Arith

  /** The number of elements of a tensor with the given dims. */
  function Product(dims: seq<nat>): nat {
    if dims == [] then 1 else dims[0] * Product(dims[1..])
  }

  lemma ProductPair(a: nat, b: nat)
    ensures Product([a, b]) == a * b
  {
    assert [b][1..] == [];
    assert Product([b]) == b * 1 == b;
    assert [a, b][1..] == [b];
  }

  class Tensor {
    const dims: seq<nat>
    const data: array<real>

    ghost predicate Valid()
      reads this
    {
      data.Length == Product(dims)
    }

    /** `new Tensor(dims)`: a buffer of Product(dims) zeros. */
    constructor (dims: seq<nat>)
      ensures Valid() && this.dims == dims && fresh(data)
      ensures forall k | 0 <= k < data.Length :: data[k] == 0.0
    {
      this.dims := dims;
      data := new real[Product(dims)](_ => 0.0);
    }
  }

  /** The errors thrown by src/nn.js. */
  datatype TensorError =
    | NotAMatrix         // 'sumreduce0 is only implemented for matrices.' (line 9)
    | NonPositiveLength  // 'length should be > 0.' (line 87)
    | IndexOutOfBounds   // 'index out of bounds' (line 90)

  /** The sum of a sequence, added up from the left as the loops do. */
  function Sum(s: seq<real>): real {
    if s == [] then 0.0 else Sum(s[..|s| - 1]) + s[|s| - 1]
  }

  lemma {:induction false} SumConcat(a: seq<real>, b: seq<real>)
    ensures Sum(a + b) == Sum(a) + Sum(b)
  {
    if b == [] {
      assert a + b == a;
    } else {
      assert (a + b)[..|a + b| - 1] == a + b[..|b| - 1];
      SumConcat(a, b[..|b| - 1]);
    }
  }

  /** The row sums of an h-by-w matrix stored row-major. */
  function RowSums(s: seq<real>, h: nat, w: nat): (sums: seq<real>)
    requires |s| == h * w
    ensures |sums| == h
  {
    seq(h, i requires 0 <= i < h => Sum(Chunk(s, h, w, i)))
  }

  /** Summing one more slot of a prefix. */
  lemma SumSnoc(x: seq<real>, i: nat)
    requires i < |x|
    ensures Sum(x[..i + 1]) == Sum(x[..i]) + x[i]
  {
    assert x[..i + 1][..i] == x[..i];
  }

  /** The first k rows are the first k - 1 rows followed by row k - 1. */
  lemma PrefixRows(s: seq<real>, h: nat, w: nat, k: nat)
    requires |s| == h * w && 0 < k <= h
    ensures (k - 1) * w + w == k * w <= |s|
    ensures s[..k * w] == s[..(k - 1) * w] + Chunk(s, h, w, k - 1)
  {
    MulLeq(k, h, w);
    assert (k - 1) * w + w == k * w;
  }

  /** The first k row sums add up to the sum of the first k rows. */
  lemma {:induction false} RowSumsPrefix(s: seq<real>, h: nat, w: nat, k: nat)
    requires |s| == h * w && k <= h
    ensures k * w <= |s| && Sum(RowSums(s, h, w)[..k]) == Sum(s[..k * w])
  {
    MulLeq(k, h, w);
    if k > 0 {
      RowSumsPrefix(s, h, w, k - 1);
      SumSnoc(RowSums(s, h, w), k - 1);
      PrefixRows(s, h, w, k);
      SumConcat(s[..(k - 1) * w], Chunk(s, h, w, k - 1));
    }
  }

  /** Summing the rows first loses nothing: the row sums add up to the sum of the matrix. */
  lemma RowSumsTotal(s: seq<real>, h: nat, w: nat)
    requires |s| == h * w
    ensures Sum(RowSums(s, h, w)) == Sum(s)
  {
    RowSumsPrefix(s, h, w, h);
    assert RowSums(s, h, w)[..h] == RowSums(s, h, w);
    assert s[..h * w] == s;
  }

  /**
   * `_sumreduce0(t)` (lines 7-20) and the forward body of `sumreduce0` (lines 25-27): a
   * matrix of dims [h, w] becomes the [h, 1] tensor of its row sums; any other rank throws.
   */
  method SumReduce0(t: Tensor) returns (r: Result<Tensor, TensorError>)
    requires t.Valid()
    ensures r.Err? <==> |t.dims| != 2
    ensures r.Err? ==> r.error == NotAMatrix
    ensures r.Ok? ==>
      && fresh(r.value) && fresh(r.value.data) && r.value.Valid()
      && r.value.dims == [t.dims[0], 1]
      && t.data.Length == t.dims[0] * t.dims[1]
      && r.value.data[..] == RowSums(t.data[..], t.dims[0], t.dims[1])
  {
    if |t.dims| != 2 {
      return Err(NotAMatrix);
    }
    var h, w := t.dims[0], t.dims[1];
    assert t.dims == [h, w];
    ProductPair(h, w);
    ProductPair(h, 1);
    var out := new Tensor([h, 1]);
    ghost var s := t.data[..];
    for i := 0 to h
      invariant forall k | 0 <= k < i :: out.data[k] == RowSums(s, h, w)[k]
      invariant forall k | i <= k < h :: out.data[k] == 0.0
    {
      ghost var row := Chunk(s, h, w, i);
      ghost var before := out.data[..];
      for j := 0 to w
        invariant out.data[i] == Sum(row[..j])
        invariant forall k | 0 <= k < h && k != i :: out.data[k] == before[k]
      {
        ChunkAt(s, h, w, i, j);
        assert row[..j + 1][..j] == row[..j];
        out.data[i] := out.data[i] + t.data[i * w + j];
      }
      assert row[..w] == row;
    }
    return Ok(out);
  }

  /** The upstream gradient of each row, repeated across the w columns of that row. */
  function RowBroadcast(up: seq<real>, w: nat): (g: seq<real>)
    ensures |g| == |up| * w
  {
    seq(|up| * w, k requires 0 <= k < |up| * w => (DivBelow(k, w, |up|); up[k / w]))
  }

  /** Slot i*w + j of the broadcast holds the gradient of row i. */
  lemma RowBroadcastAt(up: seq<real>, w: nat, i: nat, j: nat)
    requires i < |up| && j < w
    ensures RowMajor(i, w, j) < |up| * w && RowBroadcast(up, w)[RowMajor(i, w, j)] == up[i]
  {
    FlatIndexBound(i, j, |up|, w);
    DivModOf(i, j, w);
  }

  /** `dx += g`, slot by slot. */
  function Accumulate(dx: seq<real>, g: seq<real>): (r: seq<real>)
    requires |dx| == |g|
    ensures |r| == |dx|
  {
    seq(|dx|, k requires 0 <= k < |dx| => dx[k] + g[k])
  }

  /**
   * The backward body of `sumreduce0` (lines 28-36): slot i*w + j of the input gradient
   * grows by the upstream gradient of row i, and nothing else changes.
   */
  method SumReduce0Backward(x: Tensor, dx: Tensor, up: Tensor)
    requires x.Valid() && |x.dims| == 2
    requires dx.data.Length == x.data.Length && x.dims[0] <= up.data.Length
    requires dx.data != up.data
    modifies dx.data
    ensures x.data.Length == x.dims[0] * x.dims[1]
    ensures dx.data[..] == Accumulate(old(dx.data[..]), RowBroadcast(up.data[..x.dims[0]], x.dims[1]))
  {
    var h, w := x.dims[0], x.dims[1];
    assert x.dims == [h, w];
    ProductPair(h, w);
    ghost var g := RowBroadcast(up.data[..h], w);
    for i := 0 to h
      invariant forall k | 0 <= k < dx.data.Length ::
        dx.data[k] == old(dx.data[k]) + (if k < i * w then g[k] else 0.0)
    {
      for j := 0 to w
        invariant forall k | 0 <= k < dx.data.Length ::
          dx.data[k] == old(dx.data[k]) + (if k < i * w + j then g[k] else 0.0)
      {
        RowBroadcastAt(up.data[..h], w, i, j);
        dx.data[i * w + j] := dx.data[i * w + j] + up.data[i];
      }
      assert i * w + w == (i + 1) * w;
    }
    assert dx.data[..] == Accumulate(old(dx.data[..]), g);
  }

  /** Element-wise ReLU: negatives become 0. */
  function ReluMap(s: seq<real>): (r: seq<real>)
    ensures |r| == |s|
  {
    seq(|s|, i requires 0 <= i < |s| => if s[i] < 0.0 then 0.0 else s[i])
  }

  /** ReLU's output is never negative, keeps the non-negative inputs, and applying it twice is applying it once. */
  lemma ReluProperties(s: seq<real>)
    ensures forall i | 0 <= i < |s| :: ReluMap(s)[i] >= 0.0 && (s[i] >= 0.0 ==> ReluMap(s)[i] == s[i])
    ensures ReluMap(ReluMap(s)) == ReluMap(s)
  {
  }

  /** `_relu(t)` (lines 39-46) and the forward body of `relu` (lines 51-53). */
  method Relu(t: Tensor) returns (out: Tensor)
    requires t.Valid()
    ensures fresh(out) && fresh(out.data) && out.Valid()
    ensures out.dims == t.dims && out.data[..] == ReluMap(t.data[..])
  {
    out := new Tensor(t.dims);
    for i := 0 to t.data.Length
      invariant forall k | 0 <= k < i :: out.data[k] == ReluMap(t.data[..])[k]
    {
      out.data[i] := if t.data[i] < 0.0 then 0.0 else t.data[i];
    }
    assert out.data[..] == ReluMap(t.data[..]);
  }

  /** ReLU's local gradient times the upstream gradient: 0 where the input is negative. */
  function ReluGrad(x: seq<real>, up: seq<real>): (g: seq<real>)
    requires |x| <= |up|
    ensures |g| == |x|
  {
    seq(|x|, i requires 0 <= i < |x| => if x[i] < 0.0 then 0.0 else up[i])
  }

  /** The backward body of `relu` (lines 54-58): dx[i] grows by 0 for a negative input, by up[i] otherwise. */
  method ReluBackward(x: Tensor, dx: Tensor, up: Tensor)
    requires dx.data.Length == x.data.Length && x.data.Length <= up.data.Length
    requires dx.data != x.data && dx.data != up.data
    modifies dx.data
    ensures dx.data[..] == Accumulate(old(dx.data[..]), ReluGrad(x.data[..], up.data[..]))
  {
    for i := 0 to x.data.Length
      invariant forall k | 0 <= k < dx.data.Length ::
        dx.data[k] == old(dx.data[k]) + (if k < i then ReluGrad(x.data[..], up.data[..])[k] else 0.0)
    {
      dx.data[i] := dx.data[i] + if x.data[i] < 0.0 then 0.0 else up.data[i];
    }
    assert dx.data[..] == Accumulate(old(dx.data[..]), ReluGrad(x.data[..], up.data[..]));
  }

  /** `leakyness` (line 61). */
  const Leakiness: real := 100.0

  /** Element-wise leaky ReLU: negatives are divided by the leakiness. */
  function LeakyMap(s: seq<real>): (r: seq<real>)
    ensures |r| == |s|
  {
    seq(|s|, i requires 0 <= i < |s| => if s[i] < 0.0 then s[i] / Leakiness else s[i])
  }

  /** `_lrelu(t)` (lines 63-70). */
  method LeakyRelu(t: Tensor) returns (out: Tensor)
    requires t.Valid()
    ensures fresh(out) && fresh(out.data) && out.Valid()
    ensures out.dims == t.dims && out.data[..] == LeakyMap(t.data[..])
  {
    out := new Tensor(t.dims);
    for i := 0 to t.data.Length
      invariant forall k | 0 <= k < i :: out.data[k] == LeakyMap(t.data[..])[k]
    {
      out.data[i] := if t.data[i] < 0.0 then t.data[i] / Leakiness else t.data[i];
    }
    assert out.data[..] == LeakyMap(t.data[..]);
  }

  /** The forward body of `lrelu` as written (lines 75-77): it calls `_relu`, not `_lrelu`. */
  method LReluForward(t: Tensor) returns (out: Tensor)
    requires t.Valid()
    ensures fresh(out) && fresh(out.data) && out.Valid()
    ensures out.dims == t.dims && out.data[..] == ReluMap(t.data[..])
  {
    out := Relu(t);
  }

  /** The forward body of `lrelu` as its backward body and its name say it should be: `_lrelu`. */
  method LReluForwardCorrected(t: Tensor) returns (out: Tensor)
    requires t.Valid()
    ensures fresh(out) && fresh(out.data) && out.Valid()
    ensures out.dims == t.dims && out.data[..] == LeakyMap(t.data[..])
  {
    out := LeakyRelu(t);
  }

  /** Leaky ReLU's local gradient times the upstream gradient. */
  function LeakyGrad(x: seq<real>, up: seq<real>): (g: seq<real>)
    requires |x| <= |up|
    ensures |g| == |x|
  {
    seq(|x|, i requires 0 <= i < |x| => if x[i] < 0.0 then up[i] / Leakiness else up[i])
  }

  /** The backward body of `lrelu` (lines 78-82): dx[i] grows by up[i]/100 for a negative input, by up[i] otherwise. */
  method LReluBackward(x: Tensor, dx: Tensor, up: Tensor)
    requires dx.data.Length == x.data.Length && x.data.Length <= up.data.Length
    requires dx.data != x.data && dx.data != up.data
    modifies dx.data
    ensures dx.data[..] == Accumulate(old(dx.data[..]), LeakyGrad(x.data[..], up.data[..]))
  {
    for i := 0 to x.data.Length
      invariant forall k | 0 <= k < dx.data.Length ::
        dx.data[k] == old(dx.data[k]) + (if k < i then LeakyGrad(x.data[..], up.data[..])[k] else 0.0)
    {
      dx.data[i] := dx.data[i] + if x.data[i] < 0.0 then up.data[i] / Leakiness else up.data[i];
    }
    assert dx.data[..] == Accumulate(old(dx.data[..]), LeakyGrad(x.data[..], up.data[..]));
  }

  /** The slope of ReLU at v, and of leaky ReLU at v. */
  function ReluSlope(v: real): real { if v < 0.0 then 0.0 else 1.0 }
  function LeakySlope(v: real): real { if v < 0.0 then 1.0 / Leakiness else 1.0 }

  /**
   * `relu` is consistent: its forward pass scales each input by ReluSlope, and its backward
   * pass scales each upstream gradient by the same slope (the chain rule).
   */
  lemma ReluChainRule(x: seq<real>, up: seq<real>, i: nat)
    requires |x| <= |up| && i < |x|
    ensures ReluMap(x)[i] == ReluSlope(x[i]) * x[i]
    ensures ReluGrad(x, up)[i] == ReluSlope(x[i]) * up[i]
  {
  }

  /** With `_lrelu` as its forward pass, `lrelu` would be consistent the same way, with LeakySlope. */
  lemma LeakyChainRule(x: seq<real>, up: seq<real>, i: nat)
    requires |x| <= |up| && i < |x|
    ensures LeakyMap(x)[i] == LeakySlope(x[i]) * x[i]
    ensures LeakyGrad(x, up)[i] == LeakySlope(x[i]) * up[i]
  {
  }

  /**
   * As written, `lrelu` is not: at input -1 its forward pass (`_relu`) has slope 0, yet its
   * backward pass passes 1/100 of the upstream gradient on.
   */
  lemma LReluMismatch()
    ensures ReluMap([-1.0]) == [0.0] && ReluSlope(-1.0) == 0.0
    ensures LeakyGrad([-1.0], [1.0]) == [0.01]
    ensures LeakyGrad([-1.0], [1.0])[0] != ReluSlope(-1.0) * 1.0
  {
    assert ReluMap([-1.0])[0] == 0.0;
    assert LeakyGrad([-1.0], [1.0])[0] == 0.01;
  }

  /** A vector of n zeros with a 1 at index k. */
  function OneHotVector(n: nat, k: nat): (v: seq<real>)
    ensures |v| == n
  {
    seq(n, i requires 0 <= i < n => if i == k then 1.0 else 0.0)
  }

  /** A one-hot vector has exactly one 1 at index k when k < n: its slots add up to 1. */
  lemma {:induction false} OneHotSum(n: nat, k: nat)
    requires k < n
    ensures Sum(OneHotVector(n, k)) == 1.0
  {
    if n == k + 1 {
      assert OneHotVector(n, k) == OneHotVector(k, k) + [1.0];
      ZerosSum(k, k);
    } else {
      assert OneHotVector(n, k) == OneHotVector(n - 1, k) + [0.0];
      OneHotSum(n - 1, k);
    }
    SumConcat(OneHotVector(n - 1, k), [OneHotVector(n, k)[n - 1]]);
  }

  /** Before index k a one-hot vector holds only zeros. */
  lemma {:induction false} ZerosSum(n: nat, k: nat)
    requires n <= k
    ensures Sum(OneHotVector(n, k)) == 0.0
  {
    if n > 0 {
      assert OneHotVector(n, k)[..n - 1] == OneHotVector(n - 1, k);
      ZerosSum(n - 1, k);
    }
  }

  /**
   * `oneHot(index, length)` (lines 85-95): throws for a non-positive length and then for an
   * index outside [0, length); otherwise a fresh [length, 1] tensor with a 1 at index.
   */
  method OneHot(index: int, length: int) returns (r: Result<Tensor, TensorError>)
    ensures length <= 0 ==> r == Err(NonPositiveLength)
    ensures length > 0 && (index < 0 || index >= length) ==> r == Err(IndexOutOfBounds)
    ensures 0 <= index < length ==>
      && r.Ok? && fresh(r.value) && fresh(r.value.data) && r.value.Valid()
      && r.value.dims == [length, 1] && r.value.data[..] == OneHotVector(length, index)
  {
    if length <= 0 {
      return Err(NonPositiveLength);
    }
    if index < 0 || index >= length {
      return Err(IndexOutOfBounds);
    }
    ProductPair(length, 1);
    var out := new Tensor([length, 1]);
    out.data[index] := 1.0;
    assert out.data[..] == OneHotVector(length, index);
    return Ok(out);
  }
}
