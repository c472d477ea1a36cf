/** Facts about row-major flat indices and Euclidean division used by the array models. */
module Arith {

  /** The row-major index of cell (y, x) in a grid with `cols` columns. */
  function RowMajor(y: nat, cols: nat, x: nat): nat { y * cols + x }

  /** A row-major index r*w + c of a cell inside an h-by-w block lies inside the block. */
  lemma FlatIndexBound(r: nat, c: nat, h: nat, w: nat)
    requires r < h && c < w
    ensures r * w + c < h * w
    ensures r * w + w <= h * w
  {
    MulLeq(r + 1, h, w);
    assert (r + 1) * w == r * w + w;
  }

  lemma MulLeq(a: nat, b: nat, c: nat)
    requires a <= b
    ensures a * c <= b * c
  {
  }

  lemma MulNegative(a: nat, g: int)
    requires g < 0
    ensures a * g <= 0 - a
  {
  }

  /** Division by the stride recovers the quotient and remainder of q*m + r. */
  lemma DivModOf(q: nat, r: nat, m: nat)
    requires r < m
    ensures (q * m + r) / m == q && (q * m + r) % m == r
  {
    var i := q * m + r;
    var d, e := i / m, i % m;
    assert i == d * m + e && 0 <= e < m;
    if d > q {
      MulLeq(q + 1, d, m);
      assert false;
    } else if d < q {
      MulLeq(d + 1, q, m);
      assert false;
    }
  }

  /** An index below m*n has its quotient by m below n. */
  lemma DivBelow(i: nat, m: nat, n: nat)
    requires i < m * n
    ensures m > 0 && i / m < n
  {
  }

  /** Row i of an h-by-w matrix stored row-major in s: its w consecutive values from i*w. */
  function Chunk<T>(s: seq<T>, h: nat, w: nat, i: nat): (row: seq<T>)
    requires |s| == h * w && i < h
    ensures |row| == w
  {
    MulLeq(i + 1, h, w);
    s[i * w .. i * w + w]
  }

  /** Element j of row i is element i*w + j of the flat sequence. */
  lemma ChunkAt<T>(s: seq<T>, h: nat, w: nat, i: nat, j: nat)
    requires |s| == h * w && i < h && j < w
    ensures RowMajor(i, w, j) < |s| && Chunk(s, h, w, i)[j] == s[RowMajor(i, w, j)]
  {
    FlatIndexBound(i, j, h, w);
  }
}
